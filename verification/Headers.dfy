/** Frame headers in their three encodings, and the reader that finds them in a byte stream:
    section 7.3 of the ZMODEM protocol description. */
module Headers {
  import opened Bytes
  import opened Options
  import opened Escape
  import Crc

  const ZBIN: byte := 0x41
  const ZHEX: byte := 0x42
  const ZBIN32: byte := 0x43

  const ZRQINIT: byte := 0
  const ZRINIT: byte := 1
  const ZACK: byte := 3
  const ZFILE: byte := 4
  const ZFIN: byte := 8
  const ZRPOS: byte := 9
  const ZDATA: byte := 10
  const ZEOF: byte := 11
  const ZSTDERR: byte := 19

  datatype Header = Header(encoding: byte, frame: byte, f0: byte, f1: byte, f2: byte, f3: byte) {
    function Flags(): (s: seq<byte>)
      ensures |s| == 4
    {
      [f0, f1, f2, f3]
    }

    function Count(): int { CountOf(Flags()) }
  }

  function Plain(encoding: byte, frame: byte): Header { Header(encoding, frame, 0, 0, 0, 0) }

  function WithCount(encoding: byte, frame: byte, count: int): (h: Header)
    requires 0 <= count <= MAX_COUNT
    ensures h.Count() == count
    ensures h.encoding == encoding && h.frame == frame
  {
    CountRoundTrip(count);
    var s := CountBytes(count);
    Header(encoding, frame, s[0], s[1], s[2], s[3])
  }

  predicate KnownEncoding(e: byte) { e == ZBIN || e == ZHEX || e == ZBIN32 }

  // ----- hexadecimal -----

  function HexDigit(n: int): byte
    requires 0 <= n < 16
  {
    if n < 10 then 48 + n else 87 + n
  }

  function HexValue(b: byte): (r: Option<int>)
    ensures r.Some? ==> 0 <= r.value < 16
  {
    if 48 <= b <= 57 then Some(b - 48)
    else if 97 <= b <= 102 then Some(b - 87)
    else if 65 <= b <= 70 then Some(b - 55)
    else None
  }

  function HexEncode(data: seq<byte>): seq<byte> {
    if data == [] then []
    else [HexDigit(data[0] / 16), HexDigit(data[0] % 16)] + HexEncode(data[1..])
  }

  function HexDecode(data: seq<byte>): Option<seq<byte>> {
    if data == [] then Some([])
    else if |data| == 1 then None
    else
      match (HexValue(data[0]), HexValue(data[1]), HexDecode(data[2..]))
      case (Some(hi), Some(lo), Some(rest)) =>
        Some([16 * hi + lo] + rest)
      case _ => None
  }

  lemma HexDigitRoundTrip(n: int)
    requires 0 <= n < 16
    ensures HexValue(HexDigit(n)) == Some(n)
  {}

  lemma {:induction false} HexRoundTrip(data: seq<byte>)
    ensures HexDecode(HexEncode(data)) == Some(data)
    ensures |HexEncode(data)| == 2 * |data|
    decreases |data|
  {
    if data != [] {
      HexRoundTrip(data[1..]);
      var e := HexEncode(data);
      assert e[2..] == HexEncode(data[1..]);
      HexDigitRoundTrip(data[0] / 16);
      HexDigitRoundTrip(data[0] % 16);
      assert [data[0]] + data[1..] == data;
    }
  }

  /** Digits may be written in capitals: a peer's `0A1F` is read like `0a1f`. */
  lemma {:induction false} CapitalsAreRead(data: seq<byte>, capitals: seq<byte>)
    requires |capitals| == |HexEncode(data)|
    requires forall i :: 0 <= i < |capitals| ==>
      var b := HexEncode(data)[i];
      capitals[i] == b || (0x61 <= b <= 0x66 && capitals[i] == b - 0x20)
    ensures HexDecode(capitals) == Some(data)
    decreases |data|
  {
    if data != [] {
      var e := HexEncode(data);
      assert e[2..] == HexEncode(data[1..]);
      forall i | 0 <= i < |capitals[2..]|
        ensures var b := HexEncode(data[1..])[i]; capitals[2..][i] == b || (0x61 <= b <= 0x66 && capitals[2..][i] == b - 0x20)
      {
        assert e[i + 2] == HexEncode(data[1..])[i];
        assert capitals[i + 2] == e[i + 2] || (0x61 <= e[i + 2] <= 0x66 && capitals[i + 2] == e[i + 2] - 0x20);
      }
      CapitalsAreRead(data[1..], capitals[2..]);
      HexDigitRoundTrip(data[0] / 16);
      HexDigitRoundTrip(data[0] % 16);
      assert e[0] == HexDigit(data[0] / 16) && e[1] == HexDigit(data[0] % 16);
      assert [data[0]] + data[1..] == data;
    }
  }

  lemma {:induction false} HexNeedsNoEscape(data: seq<byte>)
    ensures Escaped(HexEncode(data)) == HexEncode(data)
    decreases |data|
  {
    HexPlain(data);
    EscapedPlain(HexEncode(data));
  }

  lemma {:induction false} HexPlain(data: seq<byte>)
    ensures forall i :: 0 <= i < |HexEncode(data)| ==> !MustEscape(HexEncode(data)[i])
    decreases |data|
  {
    if data != [] {
      HexPlain(data[1..]);
    }
  }

  // ----- encoding -----

  function Payload(h: Header): seq<byte> { [h.frame] + h.Flags() }

  function Checksum(encoding: byte, payload: seq<byte>): seq<byte> {
    if encoding == ZBIN32 then Crc.Wire32(Crc.Crc32(payload)) else Crc.Wire16(Crc.Crc16(payload))
  }

  /** What the line carries after the packet type, before escaping. */
  function Body(h: Header): seq<byte> {
    var raw := Payload(h) + Checksum(h.encoding, Payload(h));
    if h.encoding == ZHEX then HexEncode(raw) else raw
  }

  function Lead(h: Header): seq<byte> {
    (if h.encoding == ZHEX then [ZPAD, ZPAD] else [ZPAD]) + [ZDLE, h.encoding]
  }

  /** The bytes a reader needs: everything but the line end of a hexadecimal header. */
  function Core(h: Header): seq<byte> { Lead(h) + Escaped(Body(h)) }

  function Trailer(h: Header): seq<byte> {
    if h.encoding != ZHEX then []
    else if h.frame == ZACK || h.frame == ZFIN then [0x0d, 0x0a]
    else [0x0d, 0x0a, XON]
  }

  function Encode(h: Header): seq<byte> { Core(h) + Trailer(h) }

  // ----- decoding -----

  function CrcLength(encoding: byte): nat { if encoding == ZBIN32 then 4 else 2 }

  /** The receiver's test of a received checksum. */
  predicate ChecksumMatches(encoding: byte, payload: seq<byte>, crc: seq<byte>)
    requires |crc| == CrcLength(encoding)
  {
    if encoding == ZBIN32 then Crc.Read32(crc) == Crc.Crc32(payload) else Crc.Read16(crc) == Crc.Crc16(payload)
  }

  function DecodeHeader(encoding: byte, data: seq<byte>): Result<Header> {
    var payload := if encoding == ZHEX then HexDecode(data) else Some(data);
    if payload.None? || |payload.value| < 5 + CrcLength(encoding) then Err(MalformedHeader)
    else
      var p := payload.value;
      var crcBytes := p[5..5 + CrcLength(encoding)];
      if !ChecksumMatches(encoding, p[..5], crcBytes)
      then Err(if encoding == ZBIN32 then UnexpectedCrc32 else UnexpectedCrc16)
      else if p[0] > ZSTDERR then Err(MalformedFrame)
      else Ok(Header(encoding, p[0], p[1], p[2], p[3], p[4]))
  }

  /** The checksum test accepts exactly the checksum an encoder writes. */
  lemma ChecksumExact(encoding: byte, payload: seq<byte>, crc: seq<byte>)
    requires |crc| == CrcLength(encoding)
    ensures |Checksum(encoding, payload)| == CrcLength(encoding)
    ensures ChecksumMatches(encoding, payload, crc) <==> crc == Checksum(encoding, payload)
  {
    if encoding == ZBIN32 {
      Crc.Wire32RoundTrip(Crc.Crc32(payload));
      Crc.Read32Injective(crc);
    } else {
      Crc.Wire16RoundTrip(Crc.Crc16(payload));
      Crc.Read16Injective(crc);
    }
  }

  lemma ChecksumAccepted(encoding: byte, payload: seq<byte>)
    ensures |Checksum(encoding, payload)| == CrcLength(encoding)
    ensures ChecksumMatches(encoding, payload, Checksum(encoding, payload))
  {
    assert |Checksum(encoding, payload)| == CrcLength(encoding);
    ChecksumExact(encoding, payload, Checksum(encoding, payload));
  }

  lemma DecodeBody(h: Header)
    requires h.frame <= ZSTDERR
    ensures DecodeHeader(h.encoding, Body(h)) == Ok(h)
    ensures KnownEncoding(h.encoding) ==> |Body(h)| == HeaderReadSize(h.encoding)
  {
    var raw := Payload(h) + Checksum(h.encoding, Payload(h));
    ChecksumAccepted(h.encoding, Payload(h));
    HexRoundTrip(raw);
    assert raw[..5] == Payload(h);
    assert raw[5..5 + CrcLength(h.encoding)] == Checksum(h.encoding, Payload(h));
  }

  /** The decoder of a binary header accepts exactly the bodies that an encoder writes. */
  lemma DecodeIsExact(encoding: byte, data: seq<byte>)
    requires encoding == ZBIN || encoding == ZBIN32
    requires |data| == HeaderReadSize(encoding)
    ensures var h := Header(encoding, data[0], data[1], data[2], data[3], data[4]);
      DecodeHeader(encoding, data) == Ok(h) <==> h.frame <= ZSTDERR && data == Body(h)
    ensures DecodeHeader(encoding, data).Ok? <==> data[0] <= ZSTDERR && data[5..] == Checksum(encoding, data[..5])
  {
    var h := Header(encoding, data[0], data[1], data[2], data[3], data[4]);
    assert data[..5] == Payload(h);
    assert data == Payload(h) + data[5..];
    ChecksumExact(encoding, data[..5], data[5..]);
  }

  lemma ChecksumSeesByteChange(encoding: byte, a: seq<byte>, b: seq<byte>, i: nat)
    requires Crc.DifferAtOnly(a, b, i)
    ensures Checksum(encoding, a) != Checksum(encoding, b)
  {
    if encoding == ZBIN32 {
      Crc.Wire32RoundTrip(Crc.Crc32(a));
      Crc.Wire32RoundTrip(Crc.Crc32(b));
      Crc.Crc32DetectsByteChange(a, b, i);
    } else {
      Crc.Wire16RoundTrip(Crc.Crc16(a));
      Crc.Wire16RoundTrip(Crc.Crc16(b));
      Crc.Crc16DetectsByteChange(a, b, i);
    }
  }

  lemma DifferInPart<T>(a: seq<T>, b: seq<T>, i: nat, k: nat)
    requires |a| == |b| && i < |a| && k <= |a|
    requires a[i] != b[i] && a[..i] == b[..i] && a[i + 1..] == b[i + 1..]
    ensures i < k ==> a[..k][..i] == b[..k][..i] && a[..k][i + 1..] == b[..k][i + 1..] && a[k..] == b[k..]
    ensures i >= k ==> a[..k] == b[..k] && a[k..][i - k] != b[k..][i - k]
  {
    if i < k {
      assert a[..k][..i] == a[..i] && b[..k][..i] == b[..i];
      assert a[..k][i + 1..] == a[i + 1..][..k - i - 1] && b[..k][i + 1..] == b[i + 1..][..k - i - 1];
      assert a[k..] == a[i + 1..][k - i - 1..] && b[k..] == b[i + 1..][k - i - 1..];
    } else {
      assert a[..k] == a[..i][..k] && b[..k] == b[..i][..k];
    }
  }

  /** One wrong byte anywhere in a binary header body, checksum included, is always rejected. */
  lemma CorruptHeaderRejected(h: Header, data: seq<byte>, i: nat)
    requires h.encoding == ZBIN || h.encoding == ZBIN32
    requires Crc.DifferAtOnly(Body(h), data, i)
    ensures DecodeHeader(h.encoding, data) == Err(if h.encoding == ZBIN32 then UnexpectedCrc32 else UnexpectedCrc16)
  {
    var body := Body(h);
    ChecksumAccepted(h.encoding, Payload(h));
    assert body[..5] == Payload(h) && body[5..] == Checksum(h.encoding, Payload(h));
    DecodeIsExact(h.encoding, data);
    DifferInPart(body, data, i, 5);
    ChecksumExact(h.encoding, data[..5], data[5..]);
    if i < 5 {
      ChecksumSeesByteChange(h.encoding, body[..5], data[..5], i);
    }
  }

  function HeaderReadSize(encoding: byte): nat {
    if encoding == ZHEX then 14 else if encoding == ZBIN32 then 9 else 7
  }

  // ----- the streaming reader -----

  datatype Phase = Seeking | Typing | Collecting
  datatype PadState = NoPad | OnePad | MorePads

  datatype Reader = Reader(phase: Phase, pads: PadState, buf: seq<byte>, encoding: byte,
                           expectedLen: nat, escapePending: bool)

  const IDLE := Reader(Seeking, NoPad, [], 0, 0, false)

  /** What reading found, before it is decoded. */
  datatype Raw = More | Complete(encoding: byte, body: seq<byte>) | BadType

  /** What the caller of the reader gets. */
  datatype Outcome = Pending | Found(header: Header) | Failed(error: Error)

  function Decoded(raw: Raw): Outcome {
    match raw
    case More => Pending
    case BadType => Failed(MalformedPacketType)
    case Complete(encoding, body) =>
      match DecodeHeader(encoding, body)
      case Ok(h) => Found(h)
      case Err(e) => Failed(e)
  }

  predicate ValidReader(r: Reader) {
    r.phase.Collecting? ==>
      KnownEncoding(r.encoding) && r.expectedLen == HeaderReadSize(r.encoding) && |r.buf| < r.expectedLen
  }

  /** The pad automaton: a ZDLE after at least one ZPAD starts a header. */
  function AdvancePad(p: PadState, b: byte): (PadState, bool) {
    if p.NoPad? then (if b == ZPAD then OnePad else NoPad, false)
    else if b == ZDLE then (NoPad, true)
    else (if b == ZPAD then MorePads else NoPad, false)
  }

  function StepReader(r: Reader, b: byte): (res: (Reader, Raw))
    requires ValidReader(r)
    ensures ValidReader(res.0)
  {
    match r.phase
    case Seeking =>
      var (p, start) := AdvancePad(r.pads, b);
      (r.(pads := p, phase := if start then Typing else Seeking), More)
    case Typing =>
      if KnownEncoding(b)
      then (Reader(Collecting, r.pads, [], b, HeaderReadSize(b), false), More)
      else (IDLE, BadType)
    case Collecting =>
      var u := UnescapeStep(Unescaping(r.buf, r.escapePending), b);
      if |u.out| < r.expectedLen then (r.(buf := u.out, escapePending := u.pending), More)
      else (IDLE, Complete(r.encoding, u.out))
  }

  datatype ReadResult = ReadResult(reader: Reader, consumed: nat, raw: Raw)

  /** Reads until a header is complete, an error occurs or the input ends. */
  function Read(r: Reader, input: seq<byte>): (res: ReadResult)
    requires ValidReader(r)
    ensures ValidReader(res.reader)
    ensures res.consumed <= |input|
    ensures res.raw.More? ==> res.consumed == |input|
    ensures !res.raw.More? ==> res.reader == IDLE && res.consumed > 0
    decreases |input|
  {
    if input == [] then ReadResult(r, 0, More)
    else
      var (next, raw) := StepReader(r, input[0]);
      if raw.More? then
        var rest := Read(next, input[1..]);
        ReadResult(rest.reader, rest.consumed + 1, rest.raw)
      else ReadResult(next, 1, raw)
  }

  class HeaderReader {
    var phase: Phase
    var pads: PadState
    var buf: seq<byte>
    var encoding: byte
    var expectedLen: nat
    var escapePending: bool

    function Model(): Reader
      reads this
    {
      Reader(phase, pads, buf, encoding, expectedLen, escapePending)
    }

    constructor ()
      ensures Model() == IDLE
    {
      phase, pads, buf, encoding, expectedLen, escapePending := Seeking, NoPad, [], 0, 0, false;
    }

    method Reset()
      modifies this
      ensures Model() == IDLE
    {
      phase, pads, buf, encoding, expectedLen, escapePending := Seeking, NoPad, [], 0, 0, false;
    }

    method AdvancePadState(b: byte) returns (start: bool)
      modifies this`pads
      ensures (pads, start) == AdvancePad(old(pads), b)
    {
      match pads
      case NoPad =>
        if b == ZPAD {
          pads := OnePad;
        }
        start := false;
      case _ =>
        start := b == ZDLE;
        pads := if b == ZPAD then MorePads else NoPad;
    }

    method Accept(b: byte) returns (raw: Raw)
      requires ValidReader(Model())
      modifies this
      ensures (Model(), raw) == StepReader(old(Model()), b)
    {
      raw := More;
      match phase
      case Seeking =>
        var startsHere := AdvancePadState(b);
        if startsHere {
          phase := Typing;
        }
      case Typing =>
        if !KnownEncoding(b) {
          Reset();
          return BadType;
        }
        encoding := b;
        expectedLen := HeaderReadSize(b);
        escapePending := false;
        buf := [];
        phase := Collecting;
      case Collecting =>
        if escapePending {
          escapePending := false;
          buf := buf + [Unzdle(b)];
        } else if b == ZDLE {
          escapePending := true;
        } else {
          buf := buf + [b];
        }
        if |buf| >= expectedLen {
          raw := Complete(encoding, buf);
          Reset();
        }
    }

    method ReadFrom(input: seq<byte>, start: nat) returns (consumed: nat, outcome: Outcome)
      requires start <= |input| && ValidReader(Model())
      modifies this
      ensures ValidReader(Model())
      ensures start <= consumed <= |input|
      ensures var res := Read(old(Model()), input[start..]);
        Model() == res.reader && consumed == start + res.consumed && outcome == Decoded(res.raw)
    {
      consumed := start;
      while consumed < |input|
        invariant start <= consumed <= |input|
        invariant ValidReader(Model())
        invariant Read(old(Model()), input[start..]) == Later(Read(Model(), input[consumed..]), consumed - start)
      {
        ReadUnfold(Model(), input, consumed);
        var raw := Accept(input[consumed]);
        consumed := consumed + 1;
        if !raw.More? {
          return consumed, Decoded(raw);
        }
      }
      outcome := Pending;
    }
  }

  lemma ReadUnfold(r: Reader, input: seq<byte>, i: nat)
    requires ValidReader(r) && i < |input|
    ensures var (next, raw) := StepReader(r, input[i]);
      Read(r, input[i..]) ==
        if raw.More? then Later(Read(next, input[i + 1..]), 1) else ReadResult(next, 1, raw)
  {
    assert input[i..][1..] == input[i + 1..];
  }

  /** A result whose first `n` bytes were consumed earlier. */
  function Later(r: ReadResult, n: nat): ReadResult { r.(consumed := r.consumed + n) }

  // ----- splitting the input does not matter -----

  lemma {:induction false} ReadAppend(r: Reader, a: seq<byte>, b: seq<byte>)
    requires ValidReader(r)
    ensures var first := Read(r, a);
      Read(r, a + b) == if first.raw.More? then Later(Read(first.reader, b), |a|) else first
    decreases |a|
  {
    if a == [] {
      assert a + b == b;
    } else {
      assert (a + b)[1..] == a[1..] + b;
      var (next, raw) := StepReader(r, a[0]);
      if raw.More? {
        ReadAppend(next, a[1..], b);
      }
    }
  }

  function Concat(chunks: seq<seq<byte>>): seq<byte> {
    if chunks == [] then [] else chunks[0] + Concat(chunks[1..])
  }

  /** One reader given the chunks one call after another, up to the first header or error. */
  function ReadChunks(r: Reader, chunks: seq<seq<byte>>): ReadResult
    requires ValidReader(r)
    decreases |chunks|
  {
    if chunks == [] then ReadResult(r, 0, More)
    else
      var first := Read(r, chunks[0]);
      if first.raw.More? then Later(ReadChunks(first.reader, chunks[1..]), |chunks[0]|) else first
  }

  lemma {:induction false} ChunkingIsInvisible(r: Reader, chunks: seq<seq<byte>>)
    requires ValidReader(r)
    ensures ReadChunks(r, chunks) == Read(r, Concat(chunks))
    decreases |chunks|
  {
    if chunks != [] {
      var first := Read(r, chunks[0]);
      ReadAppend(r, chunks[0], Concat(chunks[1..]));
      if first.raw.More? {
        ChunkingIsInvisible(first.reader, chunks[1..]);
      }
    }
  }

  // ----- reading undoes encoding -----

  /** No header can start inside the noise. */
  ghost predicate Quiet(noise: seq<byte>) {
    forall i :: 0 <= i < |noise| - 1 && noise[i] == ZPAD ==> noise[i + 1] != ZDLE
  }

  ghost predicate Idle(r: Reader) { r == IDLE.(pads := r.pads) }

  lemma {:induction false} ReadNoise(r: Reader, noise: seq<byte>)
    requires Idle(r) && Quiet(noise)
    requires noise != [] && !r.pads.NoPad? ==> noise[0] != ZDLE
    ensures var res := Read(r, noise);
      && res.raw.More?
      && Idle(res.reader)
      && (noise != [] ==> (res.reader.pads.NoPad? <==> noise[|noise| - 1] != ZPAD))
    decreases |noise|
  {
    if noise != [] {
      var next := StepReader(r, noise[0]).0;
      assert Quiet(noise[1..]);
      ReadNoise(next, noise[1..]);
    }
  }

  lemma ReadOne(r: Reader, b: byte, rest: seq<byte>)
    requires ValidReader(r) && StepReader(r, b).1.More?
    ensures Read(r, [b] + rest) == Later(Read(StepReader(r, b).0, rest), 1)
  {
    assert ([b] + rest)[1..] == rest;
  }

  lemma ReadLead(r: Reader, h: Header)
    requires Idle(r) && KnownEncoding(h.encoding)
    ensures Read(r, Lead(h)) ==
      ReadResult(Reader(Collecting, NoPad, [], h.encoding, HeaderReadSize(h.encoding), false), |Lead(h)|, More)
  {
    ReadType(h.encoding);
    var padded := StepReader(r, ZPAD).0;
    if h.encoding == ZHEX {
      var padded2 := StepReader(padded, ZPAD).0;
      ReadOne(r, ZPAD, [ZPAD, ZDLE, h.encoding]);
      ReadOne(padded, ZPAD, [ZDLE, h.encoding]);
      ReadOne(padded2, ZDLE, [h.encoding]);
      assert Lead(h) == [ZPAD] + [ZPAD, ZDLE, h.encoding];
      assert [ZPAD, ZDLE, h.encoding] == [ZPAD] + [ZDLE, h.encoding];
    } else {
      ReadOne(r, ZPAD, [ZDLE, h.encoding]);
      ReadOne(padded, ZDLE, [h.encoding]);
      assert Lead(h) == [ZPAD] + [ZDLE, h.encoding];
    }
    assert [ZDLE, h.encoding] == [ZDLE] + [h.encoding];
  }

  lemma ReadType(e: byte)
    requires KnownEncoding(e)
    ensures Read(IDLE.(phase := Typing), [e]) ==
      ReadResult(Reader(Collecting, NoPad, [], e, HeaderReadSize(e), false), 1, More)
  {
    ReadOne(IDLE.(phase := Typing), e, []);
    assert [e] + [] == [e];
  }

  /** Behind a pad and a ZDLE only the three packet types are taken; any other byte is an error. */
  lemma UnknownTypeIsError(kind: byte)
    requires kind !in {0x41, 0x42, 0x43}
    ensures var res := Read(IDLE, [42, 24, kind]);
      res.reader == IDLE && res.consumed == 3 && Decoded(res.raw) == Failed(MalformedPacketType)
  {
    var padded := StepReader(IDLE, 42).0;
    ReadOne(IDLE, 42, [24, kind]);
    ReadOne(padded, 24, [kind]);
    assert [42, 24, kind] == [42] + [24, kind] && [24, kind] == [24] + [kind];
  }

  lemma ReadEscapedByte(r: Reader, b: byte)
    requires ValidReader(r) && r.phase.Collecting? && !r.escapePending
    ensures Read(r, EscapeByte(b)) ==
      var full := r.buf + [b];
      if |full| < r.expectedLen then ReadResult(r.(buf := full), |EscapeByte(b)|, More)
      else ReadResult(IDLE, |EscapeByte(b)|, Complete(r.encoding, full))
  {
    UnzdleZdle(b);
    if MustEscape(b) {
      assert EscapeByte(b) == [ZDLE] + [Zdle(b)];
      ReadOne(r, ZDLE, [Zdle(b)]);
    }
  }

  /** Collecting escaped data fills the buffer with the data, and decodes once it is full. */
  lemma {:induction false} ReadBody(r: Reader, data: seq<byte>)
    requires ValidReader(r) && r.phase.Collecting? && !r.escapePending
    requires data != [] && |r.buf| + |data| == r.expectedLen
    ensures Read(r, Escaped(data)) == ReadResult(IDLE, |Escaped(data)|, Complete(r.encoding, r.buf + data))
    decreases |data|
  {
    var b := data[0];
    var full := r.buf + [b];
    ReadEscapedByte(r, b);
    ReadAppend(r, EscapeByte(b), Escaped(data[1..]));
    assert full + data[1..] == r.buf + data;
    if |data| == 1 {
      assert Escaped(data) == EscapeByte(b);
    } else {
      ReadBody(r.(buf := full), data[1..]);
    }
  }

  /** The round trip: after any quiet noise, the reader finds exactly the encoded header, consumes it
      to its last meaningful byte and is idle again. */
  lemma ReadUndoesEncode(noise: seq<byte>, h: Header, tail: seq<byte>)
    requires Quiet(noise) && KnownEncoding(h.encoding) && h.frame <= ZSTDERR
    ensures var res := Read(IDLE, noise + Encode(h) + tail);
      res.reader == IDLE && res.consumed == |noise| + |Core(h)| && Decoded(res.raw) == Found(h)
  {
    ReadNoise(IDLE, noise);
    ReadCore(Read(IDLE, noise).reader, h, Trailer(h) + tail);
    ReadAppend(IDLE, noise, Core(h) + (Trailer(h) + tail));
    Regroup(noise, Core(h), Trailer(h), tail);
    DecodeBody(h);
  }

  lemma Regroup(a: seq<byte>, b: seq<byte>, c: seq<byte>, d: seq<byte>)
    ensures a + (b + c) + d == a + (b + (c + d))
  {}

  lemma ReadCore(r: Reader, h: Header, tail: seq<byte>)
    requires Idle(r) && KnownEncoding(h.encoding) && h.frame <= ZSTDERR
    ensures Read(r, Core(h) + tail) == ReadResult(IDLE, |Core(h)|, Complete(h.encoding, Body(h)))
  {
    var collecting := Read(r, Lead(h)).reader;
    ReadLead(r, h);
    DecodeBody(h);
    ReadBody(collecting, Body(h));
    assert collecting.buf + Body(h) == Body(h);
    ReadAppend(r, Lead(h), Escaped(Body(h)));
    ReadAppend(r, Core(h), tail);
  }

  /** The same header is found however the stream is cut into calls. */
  lemma ReadUndoesEncodeInChunks(noise: seq<byte>, h: Header, tail: seq<byte>, chunks: seq<seq<byte>>)
    requires Quiet(noise) && KnownEncoding(h.encoding) && h.frame <= ZSTDERR
    requires Concat(chunks) == noise + Encode(h) + tail
    ensures var res := ReadChunks(IDLE, chunks);
      res.reader == IDLE && res.consumed == |noise| + |Core(h)| && Decoded(res.raw) == Found(h)
  {
    ChunkingIsInvisible(IDLE, chunks);
    ReadUndoesEncode(noise, h, tail);
  }
}
