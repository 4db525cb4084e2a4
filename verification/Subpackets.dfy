/** Data subpackets: how they are framed, and the reader that takes them apart byte by byte with a
    running checksum. Section 7.4 of the ZMODEM protocol description. */
module Subpackets {
  import opened Bytes
  import opened Escape
  import opened Headers
  import Crc

  const MAX_SUBPACKET: nat := 8192

  datatype Phase = Idle | Data | Ready | Checking

  /** The reader's fields. The checksum registers of the source are represented by the bytes they have
      absorbed: `buf`, then the subpacket type. */
  datatype Sub = Sub(phase: Phase, buf: seq<byte>, encoding: byte, kind: byte, escape: bool,
                     crcEscape: bool, crcBuf: seq<byte>)

  const UNUSED := Sub(Idle, [], ZBIN, ZCRCG, false, false, [])

  predicate ValidSub(s: Sub) {
    && |s.buf| <= MAX_SUBPACKET
    && |s.crcBuf| <= CrcLength(s.encoding)
    && (s.phase.Data? ==> s.crcBuf == [])
    && IsSubpacketType(s.kind)
  }

  /** A new subpacket begins: buffer and checksum start empty. */
  function Begin(s: Sub, encoding: byte): Sub { Sub(Data, [], encoding, s.kind, false, false, []) }

  /** The subpacket has been used up. */
  function Emptied(s: Sub, phase: Phase): Sub { Sub(phase, [], s.encoding, s.kind, false, false, []) }

  /** What the reader's caller is told. */
  datatype Verdict = MoreInput | Intact | Holding | Bad(error: Error)

  function PushByte(s: Sub, b: byte): (res: (Sub, Verdict))
    ensures ValidSub(s) ==> ValidSub(res.0)
  {
    if |s.buf| >= MAX_SUBPACKET then (s, Bad(BufferOverflow)) else (s.(buf := s.buf + [b]), MoreInput)
  }

  /** One byte while data is expected. After an error the byte counts as unread. */
  function DataByte(s: Sub, b: byte): (res: (Sub, Verdict))
    ensures ValidSub(s) && s.phase.Data? ==> ValidSub(res.0)
    ensures res.0.crcBuf == s.crcBuf && res.0.encoding == s.encoding
    ensures s.phase.Data? ==> !res.0.phase.Idle? && !res.0.phase.Ready?
    ensures res.1.MoreInput? || res.1.Bad?
  {
    if s.escape && IsSubpacketType(b) then (s.(escape := false, kind := b, phase := Checking), MoreInput)
    else if s.escape then PushByte(s.(escape := false), Unzdle(b))
    else if b == ZDLE then (s.(escape := true), MoreInput)
    else PushByte(s, b)
  }

  /** One byte while the checksum is expected. */
  function CrcByte(s: Sub, b: byte): (res: Sub)
    ensures ValidSub(s) && s.phase.Checking? && |s.crcBuf| < CrcLength(s.encoding) ==> ValidSub(res)
    ensures res == s.(crcBuf := res.crcBuf, crcEscape := res.crcEscape) && |res.crcBuf| <= |s.crcBuf| + 1
  {
    var u := UnescapeStep(Unescaping(s.crcBuf, s.crcEscape), b);
    s.(crcBuf := u.out, crcEscape := u.pending)
  }

  function Verify(s: Sub): (v: Verdict)
    requires |s.crcBuf| == CrcLength(s.encoding)
    ensures v.Intact? || v.Bad?
    ensures v.Intact? <==> s.crcBuf == Checksum(s.encoding, s.buf + [s.kind])
  {
    ChecksumExact(s.encoding, s.buf + [s.kind], s.crcBuf);
    if ChecksumMatches(s.encoding, s.buf + [s.kind], s.crcBuf) then Intact
    else Bad(if s.encoding == ZBIN32 then UnexpectedCrc32 else UnexpectedCrc16)
  }

  datatype SubRead = SubRead(sub: Sub, consumed: nat, verdict: Verdict)

  function Shift(x: SubRead, n: nat): SubRead { x.(consumed := x.consumed + n) }

  /** Reads until the checksum is decided, an error occurs or the input ends. */
  function ReadSub(s: Sub, input: seq<byte>): (res: SubRead)
    requires |s.crcBuf| <= CrcLength(s.encoding)
    ensures res.consumed <= |input|
    ensures res.verdict.MoreInput? ==> res.consumed == |input| && |res.sub.crcBuf| <= CrcLength(res.sub.encoding)
    ensures res.verdict.Intact? ==> res.sub.phase.Checking? && |res.sub.crcBuf| == CrcLength(res.sub.encoding)
    ensures res.verdict.Intact? ==> res.sub.crcBuf == Checksum(res.sub.encoding, res.sub.buf + [res.sub.kind])
    ensures ValidSub(s) ==> ValidSub(res.sub)
    ensures res.sub.encoding == s.encoding
    ensures !s.phase.Idle? ==> !res.sub.phase.Idle?
    ensures res.sub.phase.Ready? <==> s.phase.Ready?
    ensures s.phase.Ready? ==> res.sub == s && !res.verdict.Bad?
    decreases |input|
  {
    hide DataByte, CrcByte, Verify, Checksum;
    if input == [] then SubRead(s, 0, MoreInput)
    else
      match s.phase
      case Data =>
        var (next, v) := DataByte(s, input[0]);
        if v.Bad? then SubRead(next, 0, v) else Shift(ReadSub(next, input[1..]), 1)
      case Checking =>
        if |s.crcBuf| == CrcLength(s.encoding) then SubRead(s, 0, Verify(s))
        else
          var next := CrcByte(s, input[0]);
          if |next.crcBuf| == CrcLength(next.encoding) then SubRead(next, 1, Verify(next))
          else Shift(ReadSub(next, input[1..]), 1)
      case Ready => SubRead(s, 0, Holding)
      case Idle => SubRead(s, 0, Bad(UnsupportedState))
  }

  // ----- the reader as the source keeps it: fields updated in place, running registers -----

  class SubpacketReader {
    var phase: Phase
    var buf: seq<byte>
    var encoding: byte
    var kind: byte
    var escape: bool
    var crcEscape: bool
    var crcBuf: seq<byte>
    const crc16: Crc.Register16
    const crc32: Crc.Register32

    ghost function Model(): Sub
      reads this
    {
      Sub(phase, buf, encoding, kind, escape, crcEscape, crcBuf)
    }

    ghost const Repr: set<object> := {this, crc16, crc32}

    /** The register in use has absorbed what has been read. */
    ghost predicate Valid()
      reads Repr
    {
      && ValidSub(Model())
      && crc16.Valid() && crc32.Valid()
      && (phase.Data? ==> Absorbed() == buf)
      && (phase.Checking? ==> Absorbed() == buf + [kind])
    }

    ghost function Absorbed(): seq<byte>
      reads this`encoding, crc16, crc32
    {
      if encoding == ZBIN32 then crc32.absorbed else crc16.absorbed
    }

    constructor ()
      ensures Valid() && Model() == UNUSED && fresh(Repr)
    {
      phase, buf, encoding, kind := Idle, [], ZBIN, ZCRCG;
      escape, crcEscape, crcBuf := false, false, [];
      crc16 := new Crc.Register16();
      crc32 := new Crc.Register32();
    }

    method ResetCrc()
      modifies this`crcEscape, this`crcBuf, crc16, crc32
      ensures crc16.Valid() && crc32.Valid() && crc16.absorbed == [] && crc32.absorbed == []
      ensures !crcEscape && crcBuf == []
    {
      crc16.Reset();
      crc32.Reset();
      crcEscape, crcBuf := false, [];
    }

    method UpdateCrc(b: byte)
      requires crc16.Valid() && crc32.Valid()
      modifies crc16, crc32
      ensures crc16.Valid() && crc32.Valid() && Absorbed() == old(Absorbed()) + [b]
    {
      if encoding == ZBIN32 {
        crc32.UpdateByte(b);
      } else {
        crc16.UpdateByte(b);
      }
    }

    method BeginReading(enc: byte)
      requires Valid()
      modifies Repr
      ensures Valid() && Model() == Begin(old(Model()), enc)
    {
      hide Crc.Register16.Valid, Crc.Register32.Valid;
      encoding, phase, escape, buf := enc, Data, false, [];
      ResetCrc();
    }

    method Empty(next: Phase)
      requires Valid() && !next.Checking?
      modifies Repr
      ensures Valid() && Model() == Emptied(old(Model()), next)
    {
      hide Crc.Register16.Valid, Crc.Register32.Valid;
      phase, escape, buf := next, false, [];
      ResetCrc();
    }

    method Hold()
      requires Valid()
      modifies this`phase
      ensures Valid() && Model() == old(Model()).(phase := Ready)
    {
      phase := Ready;
    }

    method Push(b: byte) returns (v: Verdict)
      requires Valid() && phase.Data?
      modifies Repr
      ensures Valid() && (Model(), v) == PushByte(old(Model()), b)
    {
      hide Crc.Register16.Valid, Crc.Register32.Valid;
      if |buf| >= MAX_SUBPACKET {
        return Bad(BufferOverflow);
      }
      UpdateCrc(b);
      buf := buf + [b];
      v := MoreInput;
    }

    method AcceptDataByte(b: byte) returns (v: Verdict)
      requires Valid() && phase.Data?
      modifies Repr
      ensures Valid() && (Model(), v) == DataByte(old(Model()), b)
    {
      hide Crc.Register16.Valid, Crc.Register32.Valid, PushByte;
      v := MoreInput;
      if escape {
        escape := false;
        if IsSubpacketType(b) {
          UpdateCrc(b);
          kind := b;
          phase := Checking;
        } else {
          v := Push(Unzdle(b));
        }
      } else if b == ZDLE {
        escape := true;
      } else {
        v := Push(b);
      }
    }

    method AcceptCrcByte(b: byte)
      requires Valid() && phase.Checking? && |crcBuf| < CrcLength(encoding)
      modifies this`crcEscape, this`crcBuf
      ensures Valid() && Model() == CrcByte(old(Model()), b)
    {
      hide Crc.Register16.Valid, Crc.Register32.Valid;
      if crcEscape {
        crcEscape := false;
        crcBuf := crcBuf + [Unzdle(b)];
      } else if b == ZDLE {
        crcEscape := true;
      } else {
        crcBuf := crcBuf + [b];
      }
    }

    method VerifyCrc() returns (v: Verdict)
      requires Valid() && phase.Checking? && |crcBuf| == CrcLength(encoding)
      ensures v == Verify(Model())
    {
      hide Crc.Crc16, Crc.Crc32, Checksum;
      if encoding == ZBIN32 {
        var ok := crc32.Matches(crcBuf);
        v := if ok then Intact else Bad(UnexpectedCrc32);
      } else {
        var ok := crc16.Matches(crcBuf);
        v := if ok then Intact else Bad(UnexpectedCrc16);
      }
    }

    method ReadFrom(input: seq<byte>, start: nat) returns (consumed: nat, v: Verdict)
      requires Valid() && start <= |input|
      modifies Repr
      ensures Valid() && start <= consumed <= |input|
      ensures SubRead(Model(), consumed - start, v) == ReadSub(old(Model()), input[start..])
    {
      hide ReadSub, DataByte, CrcByte, Verify, Checksum;
      consumed := start;
      while consumed < |input|
        invariant start <= consumed <= |input| && Valid()
        invariant ReadSub(old(Model()), input[start..]) == Shift(ReadSub(Model(), input[consumed..]), consumed - start)
        decreases |input| - consumed
      {
        ReadSubUnfold(Model(), input, consumed);
        match phase
        case Data =>
          v := AcceptDataByte(input[consumed]);
          if v.Bad? {
            return;
          }
          consumed := consumed + 1;
        case Checking =>
          if |crcBuf| < CrcLength(encoding) {
            AcceptCrcByte(input[consumed]);
            consumed := consumed + 1;
          }
          if |crcBuf| == CrcLength(encoding) {
            v := VerifyCrc();
            return;
          }
        case Ready =>
          return consumed, Holding;
        case Idle =>
          return consumed, Bad(UnsupportedState);
      }
      assert input[consumed..] == [];
      ReadSubNothing(Model());
      v := MoreInput;
    }
  }

  lemma ReadSubNothing(s: Sub)
    requires |s.crcBuf| <= CrcLength(s.encoding)
    ensures ReadSub(s, []) == SubRead(s, 0, MoreInput)
  {}

  /** One round of the reading loop at position `i`. */
  lemma ReadSubUnfold(s: Sub, input: seq<byte>, i: nat)
    requires |s.crcBuf| <= CrcLength(s.encoding) && i < |input|
    ensures ReadSub(s, input[i..]) ==
      match s.phase
      case Data =>
        var (next, v) := DataByte(s, input[i]);
        if v.Bad? then SubRead(next, 0, v) else Shift(ReadSub(next, input[i + 1..]), 1)
      case Checking =>
        if |s.crcBuf| == CrcLength(s.encoding) then SubRead(s, 0, Verify(s))
        else
          var next := CrcByte(s, input[i]);
          if |next.crcBuf| == CrcLength(next.encoding) then SubRead(next, 1, Verify(next))
          else Shift(ReadSub(next, input[i + 1..]), 1)
      case Ready => SubRead(s, 0, Holding)
      case Idle => SubRead(s, 0, Bad(UnsupportedState))
  {
    hide DataByte, CrcByte, Verify, Checksum;
    assert input[i..][1..] == input[i + 1..];
  }

  // ----- framing -----

  /** Escaped data, the end type, and the escaped checksum over data and type. */
  function Subpacket(encoding: byte, data: seq<byte>, kind: byte): seq<byte> {
    Escaped(data) + ([ZDLE, kind] + Escaped(Checksum(encoding, data + [kind])))
  }

  // ----- splitting the input does not matter -----

  lemma {:induction false} ReadSubAppend(s: Sub, a: seq<byte>, b: seq<byte>)
    requires |s.crcBuf| <= CrcLength(s.encoding)
    ensures var first := ReadSub(s, a);
      ReadSub(s, a + b) == if first.verdict.MoreInput? then Shift(ReadSub(first.sub, b), |a|) else first
    decreases |a|
  {
    hide DataByte, CrcByte, Verify;
    if a == [] {
      assert a + b == b;
    } else {
      assert (a + b)[1..] == a[1..] + b;
      match s.phase
      case Data =>
        var (next, v) := DataByte(s, a[0]);
        if !v.Bad? {
          ReadSubAppend(next, a[1..], b);
        }
      case Checking =>
        if |s.crcBuf| < CrcLength(s.encoding) {
          var next := CrcByte(s, a[0]);
          if |next.crcBuf| < CrcLength(next.encoding) {
            ReadSubAppend(next, a[1..], b);
          }
        }
      case _ =>
    }
  }

  /** One reader given its input one call after another. */
  function ReadSubChunks(s: Sub, chunks: seq<seq<byte>>): SubRead
    requires |s.crcBuf| <= CrcLength(s.encoding)
    decreases |chunks|
  {
    if chunks == [] then SubRead(s, 0, MoreInput)
    else
      var first := ReadSub(s, chunks[0]);
      if first.verdict.MoreInput? then Shift(ReadSubChunks(first.sub, chunks[1..]), |chunks[0]|) else first
  }

  lemma {:induction false} SubChunkingIsInvisible(s: Sub, chunks: seq<seq<byte>>)
    requires |s.crcBuf| <= CrcLength(s.encoding)
    ensures ReadSubChunks(s, chunks) == ReadSub(s, Concat(chunks))
    decreases |chunks|
  {
    if chunks != [] {
      var first := ReadSub(s, chunks[0]);
      ReadSubAppend(s, chunks[0], Concat(chunks[1..]));
      if first.verdict.MoreInput? {
        SubChunkingIsInvisible(first.sub, chunks[1..]);
      }
    }
  }

  // ----- reading undoes framing -----

  /** The reader is at the start of a subpacket. */
  ghost predicate AtStart(s: Sub) {
    s == s.(phase := Data, buf := [], escape := false, crcEscape := false, crcBuf := [])
  }

  ghost predicate Collects(s: Sub) { s.phase.Data? && !s.escape && s.crcBuf == [] && !s.crcEscape }

  lemma ReadOneByte(s: Sub, b: byte, rest: seq<byte>)
    requires s.phase.Data? && |s.crcBuf| <= CrcLength(s.encoding) && DataByte(s, b).1.MoreInput?
    ensures ReadSub(s, [b] + rest) == Shift(ReadSub(DataByte(s, b).0, rest), 1)
  {
    assert ([b] + rest)[1..] == rest;
  }

  lemma ReadDataByte(s: Sub, b: byte, rest: seq<byte>)
    requires Collects(s) && |s.buf| < MAX_SUBPACKET
    ensures ReadSub(s, EscapeByte(b) + rest) == Shift(ReadSub(s.(buf := s.buf + [b]), rest), |EscapeByte(b)|)
  {
    hide ReadSub;
    UnzdleZdle(b);
    if MustEscape(b) {
      assert EscapeByte(b) + rest == [ZDLE] + ([Zdle(b)] + rest);
      ReadOneByte(s, ZDLE, [Zdle(b)] + rest);
      ReadOneByte(s.(escape := true), Zdle(b), rest);
    } else {
      ReadOneByte(s, b, rest);
    }
  }

  lemma {:induction false} ReadData(s: Sub, data: seq<byte>, rest: seq<byte>)
    requires Collects(s) && |s.buf| + |data| <= MAX_SUBPACKET
    ensures ReadSub(s, Escaped(data) + rest) == Shift(ReadSub(s.(buf := s.buf + data), rest), |Escaped(data)|)
    decreases |data|
  {
    hide ReadSub, Checksum, Zdle;
    if data == [] {
      assert s.buf + data == s.buf && Escaped(data) + rest == rest;
    } else {
      var next := s.(buf := s.buf + [data[0]]);
      var tail := Escaped(data[1..]) + rest;
      assert Escaped(data) + rest == EscapeByte(data[0]) + tail;
      ReadDataByte(s, data[0], tail);
      ReadData(next, data[1..], rest);
      assert next.buf + data[1..] == s.buf + data;
    }
  }

  lemma ReadType(s: Sub, kind: byte, rest: seq<byte>)
    requires Collects(s) && IsSubpacketType(kind)
    ensures ReadSub(s, [ZDLE, kind] + rest) == Shift(ReadSub(s.(kind := kind, phase := Checking), rest), 2)
  {
    hide ReadSub;
    assert [ZDLE, kind] + rest == [ZDLE] + ([kind] + rest);
    ReadOneByte(s, ZDLE, [kind] + rest);
    ReadOneByte(s.(escape := true), kind, rest);
  }

  lemma ReadCrcByte(s: Sub, b: byte, rest: seq<byte>)
    requires s.phase.Checking? && !s.crcEscape && |s.crcBuf| < CrcLength(s.encoding)
    ensures var next := s.(crcBuf := s.crcBuf + [b]);
      ReadSub(s, EscapeByte(b) + rest) ==
        if |next.crcBuf| == CrcLength(s.encoding) then SubRead(next, |EscapeByte(b)|, Verify(next))
        else Shift(ReadSub(next, rest), |EscapeByte(b)|)
  {
    hide Verify, Checksum;
    UnzdleZdle(b);
    var e := EscapeByte(b) + rest;
    if MustEscape(b) {
      assert e[1..] == [Zdle(b)] + rest && e[1..][1..] == rest;
    } else {
      assert e[1..] == rest;
    }
  }

  lemma {:induction false} ReadCrc(s: Sub, crc: seq<byte>, rest: seq<byte>)
    requires s.phase.Checking? && !s.crcEscape && crc != []
    requires |s.crcBuf| + |crc| == CrcLength(s.encoding)
    ensures var full := s.(crcBuf := s.crcBuf + crc);
      ReadSub(s, Escaped(crc) + rest) == SubRead(full, |Escaped(crc)|, Verify(full))
    decreases |crc|
  {
    hide ReadSub, Verify, Checksum;
    var next := s.(crcBuf := s.crcBuf + [crc[0]]);
    var tail := Escaped(crc[1..]) + rest;
    assert Escaped(crc) + rest == EscapeByte(crc[0]) + tail;
    ReadCrcByte(s, crc[0], tail);
    if |crc| == 1 {
      assert s.crcBuf + crc == next.crcBuf;
      assert Escaped(crc) == EscapeByte(crc[0]);
    } else {
      ReadCrc(next, crc[1..], rest);
      assert next.crcBuf + crc[1..] == s.crcBuf + crc;
    }
  }

  /** A framed subpacket with checksum bytes `crc` leads to the checksum test on exactly its data,
      type and checksum. */
  lemma ReadFrame(s: Sub, data: seq<byte>, kind: byte, crc: seq<byte>, tail: seq<byte>)
    requires AtStart(s) && |data| <= MAX_SUBPACKET && IsSubpacketType(kind)
    requires |crc| == CrcLength(s.encoding)
    ensures var full := Sub(Checking, data, s.encoding, kind, false, false, crc);
      ReadSub(s, Escaped(data) + ([ZDLE, kind] + Escaped(crc)) + tail) ==
        SubRead(full, |Escaped(data)| + 2 + |Escaped(crc)|, Verify(full))
  {
    hide ReadSub, Verify, Checksum;
    var rest := [ZDLE, kind] + (Escaped(crc) + tail);
    assert Escaped(data) + ([ZDLE, kind] + Escaped(crc)) + tail == Escaped(data) + rest;
    assert s.buf + data == data && s.crcBuf + crc == crc;
    ReadData(s, data, rest);
    ReadType(s.(buf := data), kind, Escaped(crc) + tail);
    ReadCrc(s.(buf := data, kind := kind, phase := Checking), crc, tail);
  }

  /** The round trip: any data of up to 8192 bytes with any end type, in any encoding, comes out of
      the reader exactly, and the reader stops right behind the subpacket. */
  lemma FramingRoundTrip(s: Sub, data: seq<byte>, kind: byte, tail: seq<byte>)
    requires AtStart(s) && |data| <= MAX_SUBPACKET && IsSubpacketType(kind)
    ensures var crc := Checksum(s.encoding, data + [kind]);
      ReadSub(s, Subpacket(s.encoding, data, kind) + tail) ==
        SubRead(Sub(Checking, data, s.encoding, kind, false, false, crc),
                |Subpacket(s.encoding, data, kind)|, Intact)
  {
    hide ReadSub, ChecksumMatches, Checksum;
    var crc := Checksum(s.encoding, data + [kind]);
    ChecksumAccepted(s.encoding, data + [kind]);
    ReadFrame(s, data, kind, crc, tail);
  }

  /** The same, however the subpacket is cut into calls. */
  lemma FramingRoundTripInChunks(s: Sub, data: seq<byte>, kind: byte, chunks: seq<seq<byte>>)
    requires AtStart(s) && |data| <= MAX_SUBPACKET && IsSubpacketType(kind)
    requires Concat(chunks) == Subpacket(s.encoding, data, kind)
    ensures var res := ReadSubChunks(s, chunks);
      res.verdict.Intact? && res.consumed == |Concat(chunks)| && res.sub.buf == data && res.sub.kind == kind
  {
    hide ReadSub, Checksum;
    SubChunkingIsInvisible(s, chunks);
    FramingRoundTrip(s, data, kind, []);
    assert Concat(chunks) + [] == Concat(chunks);
  }

  /** A subpacket whose data differs in one byte from the data its checksum was computed for is
      rejected, whatever follows. */
  lemma CorruptSubpacketRejected(s: Sub, sent: seq<byte>, got: seq<byte>, i: nat, kind: byte, tail: seq<byte>)
    requires AtStart(s) && Crc.DifferAtOnly(sent, got, i) && |got| <= MAX_SUBPACKET && IsSubpacketType(kind)
    ensures ReadSub(s, Escaped(got) + ([ZDLE, kind] + Escaped(Checksum(s.encoding, sent + [kind]))) + tail).verdict ==
      Bad(if s.encoding == ZBIN32 then UnexpectedCrc32 else UnexpectedCrc16)
  {
    hide ReadSub, ChecksumMatches, Checksum;
    ChecksumAccepted(s.encoding, sent + [kind]);
    var a, b := sent + [kind], got + [kind];
    assert a[..i] == sent[..i] && b[..i] == got[..i];
    assert a[i + 1..] == sent[i + 1..] + [kind] && b[i + 1..] == got[i + 1..] + [kind];
    ChecksumSeesByteChange(s.encoding, a, b, i);
    ReadFrame(s, got, kind, Checksum(s.encoding, a), tail);
  }
}
