/** The sending half of a ZMODEM session as a transition system over its fields. The outgoing buffer
    only ever holds one message, so it is represented by that message; `history` is the record of what
    was queued and what the peer asked for, and no decision reads it. */
module SenderSpec {
  import opened Bytes
  import opened Options
  import opened Headers
  import opened Subpackets
  import opened Escape
  import FileInfo

  const MAX_PER_ACK: nat := 200
  const CAPACITY: nat := 262144

  datatype State =
    | WaitReceiverInit | ReadyForFile | WaitFilePos | NeedFileData
    | WaitFileAck | WaitFileDone | WaitFinish | Done

  datatype Event = FileComplete | SessionComplete

  datatype Request = Request(offset: int, len: int)

  datatype Message =
    | Bare(header: Header)
    | File(name: seq<byte>, size: nat)
    | Chunk(at: Option<int>, data: seq<byte>, kind: byte)
    | Eof(offset: int)
    | Goodbye

  datatype Entry = Sent(message: Message) | Asked(offset: int)

  /** The outgoing buffer: nothing, a message, or the part of a message that fitted. */
  datatype Outgoing = Empty | Whole(message: Message) | Cut(message: Message)

  datatype Sender = Sender(
    state: State,
    fileName: seq<byte>,
    fileSize: int,
    hasFile: bool,
    request: Option<Request>,
    frameRemaining: int,
    frameNeedsHeader: bool,
    maxPerAck: int,
    outgoing: Outgoing,
    reader: Reader,
    event: Option<Event>,
    finishRequested: bool,
    history: seq<Entry>)
  {
    predicate HasOutgoing() { !outgoing.Empty? }

    function Send(m: Message): Sender { this.(outgoing := Whole(m), history := history + [Sent(m)]) }
  }

  // ----- messages on the line -----

  predicate ValidMessage(m: Message) {
    match m
    case Chunk(at, data, kind) =>
      (at.Some? ==> 0 <= at.value <= MAX_COUNT) && 1 <= |data| <= MAX_SUBPACKET && (kind == ZCRCG || kind == ZCRCW)
    case Eof(offset) => 0 <= offset <= MAX_COUNT
    case _ => true
  }

  function MessageBytes(m: Message): seq<byte>
    requires ValidMessage(m)
  {
    match m
    case Bare(h) => Encode(h)
    case File(name, size) =>
      Encode(Plain(ZBIN32, ZFILE)) + Subpacket(ZBIN32, FileInfo.Encode(name, size), ZCRCW)
    case Chunk(at, data, kind) =>
      (if at.Some? then Encode(WithCount(ZBIN32, ZDATA, at.value)) else []) + Subpacket(ZBIN32, data, kind)
    case Eof(offset) => Encode(WithCount(ZBIN32, ZEOF, offset))
    case Goodbye => [79, 79]
  }

  lemma EncodeLength(h: Header)
    ensures 0 < |Encode(h)| <= 24
  {
    var raw := Payload(h) + Checksum(h.encoding, Payload(h));
    ChecksumAccepted(h.encoding, Payload(h));
    if h.encoding == ZHEX {
      HexRoundTrip(raw);
      HexNeedsNoEscape(raw);
    } else {
      EscapedLength(raw);
    }
  }

  lemma SubpacketLength(encoding: byte, data: seq<byte>, kind: byte)
    ensures |Subpacket(encoding, data, kind)| <= 2 * |data| + 10
  {
    EscapedLength(data);
    ChecksumAccepted(encoding, data + [kind]);
    EscapedLength(Checksum(encoding, data + [kind]));
  }

  /** Every message but a file announcement fits the outgoing buffer; none is empty. */
  lemma MessagesFit(m: Message)
    requires ValidMessage(m)
    ensures |MessageBytes(m)| > 0
    ensures !m.File? ==> |MessageBytes(m)| <= 16_418 < CAPACITY
    ensures m.File? && |FileInfo.Encode(m.name, m.size)| <= MAX_SUBPACKET ==> |MessageBytes(m)| < CAPACITY
  {
    hide Encode, Subpacket, CountOf;
    match m
    case Bare(h) => EncodeLength(h);
    case File(name, size) =>
      EncodeLength(Plain(ZBIN32, ZFILE));
      SubpacketLength(ZBIN32, FileInfo.Encode(name, size), ZCRCW);
    case Chunk(at, data, kind) =>
      SubpacketLength(ZBIN32, data, kind);
      SubpacketNotEmpty(ZBIN32, data, kind);
      if at.Some? {
        EncodeLength(WithCount(ZBIN32, ZDATA, at.value));
      }
    case Eof(offset) => EncodeLength(WithCount(ZBIN32, ZEOF, offset));
    case Goodbye =>
  }

  lemma SubpacketNotEmpty(encoding: byte, data: seq<byte>, kind: byte)
    ensures |Subpacket(encoding, data, kind)| > 0
  {
    hide Escaped, Checksum;
  }

  /** The announcement fits the sender's outgoing buffer. */
  predicate FitsOutgoing(name: seq<byte>, size: nat) { |MessageBytes(File(name, size))| <= CAPACITY }

  // ----- states -----

  function Min(a: int, b: int): int { if a < b then a else b }

  predicate Valid(s: Sender) {
    && ValidReader(s.reader)
    && 0 <= s.fileSize <= MAX_COUNT
    && (s.maxPerAck == 1 || s.maxPerAck == MAX_PER_ACK)
    && (s.request.Some? <==> s.state.NeedFileData?)
    && (s.outgoing.Whole? ==> ValidMessage(s.outgoing.message))
    && (s.outgoing.Cut? ==> s.outgoing.message.File?)
    && (s.request.Some? ==>
      && 0 <= s.request.value.offset < s.fileSize
      && s.request.value.len == Min(MAX_SUBPACKET, s.fileSize - s.request.value.offset)
      && 1 <= s.frameRemaining <= s.maxPerAck)
  }

  function Zrqinit(): Message { Bare(Plain(ZHEX, ZRQINIT)) }

  function Zfin(): Message { Bare(Plain(ZHEX, ZFIN)) }

  function NewSender(initiator: bool): Sender {
    var s := Sender(WaitReceiverInit, [], 0, false, None, 0, false, MAX_PER_ACK, Empty, IDLE, None, false, []);
    if initiator then s.Send(Zrqinit()) else s
  }

  /** Queueing the announcement of the current file; an overlong name overflows the buffer. */
  function QueueZfile(s: Sender): (res: (Sender, Option<Error>))
    requires Valid(s)
    ensures Valid(res.0)
  {
    hide ValidReader, MessageBytes;
    var m := File(s.fileName, s.fileSize);
    if FitsOutgoing(s.fileName, s.fileSize) then (s.Send(m), None)
    else (s.(outgoing := Cut(m)), Some(BufferOverflow))
  }

  /** As `QueueZfile`; once the announcement is queued the receiver's answer is awaited. */
  function Announce(s: Sender): (res: (Sender, Option<Error>))
    requires Valid(s) && s.request.None?
    ensures Valid(res.0)
  {
    hide ValidReader, MessageBytes;
    var (queued, err) := QueueZfile(s);
    if err.Some? then (queued, err) else (queued.(state := WaitFilePos), None)
  }

  // ----- calls from the owner -----

  function StartFile(s: Sender, name: seq<byte>, size: int): (res: (Sender, Option<Error>))
    requires Valid(s)
    ensures Valid(res.0)
  {
    hide Announce, ValidReader;
    if !s.state.WaitReceiverInit? && !s.state.ReadyForFile? then (s, Some(UnsupportedState))
    else if size < 0 || size > MAX_COUNT then (s, Some(CountOutOfRange))
    else
      var named := s.(fileName := name, fileSize := size, hasFile := true, request := None,
                      frameRemaining := 0, frameNeedsHeader := false);
      if s.state.WaitReceiverInit? then (named, None)
      else if s.HasOutgoing() then (named, Some(PendingOutgoing))
      else Announce(named)
  }

  function FinishSession(s: Sender): (res: (Sender, Option<Error>))
    requires Valid(s)
    ensures Valid(res.0)
  {
    var asked := s.(finishRequested := true);
    if !s.state.ReadyForFile? then (asked, None)
    else if s.HasOutgoing() then (asked, Some(PendingOutgoing))
    else (asked.Send(Zfin()).(state := WaitFinish), None)
  }

  /** Whether the fed chunk closes its frame. */
  predicate ClosesFrame(s: Sender, size: nat)
    requires s.request.Some?
  {
    s.frameRemaining <= 1 || size < s.request.value.len || s.request.value.offset + size == s.fileSize
  }

  function FeedFile(s: Sender, data: seq<byte>): (res: (Sender, Option<Error>))
    requires Valid(s)
    ensures Valid(res.0)
  {
    hide SendChunk;
    if s.request.None? then (s, Some(UnsupportedState))
    else if data == [] || |data| > s.request.value.len then (s, Some(UnexpectedEof))
    else if s.HasOutgoing() then (s, Some(PendingOutgoing))
    else (SendChunk(s, data), None)
  }

  /** The chunk is queued, and either its frame ends or the next request follows on. */
  function SendChunk(s: Sender, data: seq<byte>): (res: Sender)
    requires Valid(s) && s.request.Some? && 1 <= |data| <= s.request.value.len
    ensures Valid(res)
  {
    hide ValidReader;
    var offset := s.request.value.offset;
    var last := ClosesFrame(s, |data|);
    var at := if s.frameNeedsHeader then Some(offset) else None;
    Advance(s.Send(Chunk(at, data, if last then ZCRCW else ZCRCG)), offset + |data|, last)
  }

  function Advance(s: Sender, next: int, last: bool): (res: Sender)
    requires Valid(s) && s.request.Some? && 0 <= next <= s.fileSize
    requires !last ==> next < s.fileSize && s.frameRemaining > 1
    ensures Valid(res)
  {
    hide ValidReader;
    if last then s.(frameNeedsHeader := false, request := None, state := WaitFileAck, frameRemaining := 0)
    else s.(frameNeedsHeader := false, request := Some(Request(next, Min(MAX_SUBPACKET, s.fileSize - next))),
            frameRemaining := s.frameRemaining - 1)
  }

  // ----- headers from the peer -----

  /** The receiver can take data while it writes to disk. */
  predicate CanOverlap(h: Header) { h.f3 / 2 % 2 == 1 }

  /** No file is in progress: close the session if that was asked for. */
  function IdleOrFinish(s: Sender): (res: Sender)
    requires Valid(s) && s.request.None?
    ensures Valid(res)
  {
    hide ValidReader;
    if s.finishRequested then s.Send(Zfin()).(state := WaitFinish) else s.(state := ReadyForFile)
  }

  function SayGoodbye(s: Sender): (res: Sender)
    requires Valid(s) && s.request.None?
    ensures Valid(res)
  {
    s.Send(Goodbye).(state := Done, event := Some(SessionComplete))
  }

  function OnZrinit(s: Sender, h: Header): (res: (Sender, Option<Error>))
    requires Valid(s) && s.request.None?
    ensures Valid(res.0)
  {
    hide Announce, IdleOrFinish, SayGoodbye, ValidReader;
    var t := s.(maxPerAck := if CanOverlap(h) then MAX_PER_ACK else 1);
    match s.state
    case WaitReceiverInit =>
      if s.hasFile then Announce(t) else (IdleOrFinish(t), None)
    case WaitFileDone => (IdleOrFinish(t.(event := Some(FileComplete), hasFile := false)), None)
    case WaitFinish => (SayGoodbye(t), None)
    case _ => (t, None)
  }

  /** Asks the owner for the data from `offset` on: a new frame. */
  function RequestData(s: Sender, offset: int): (res: Sender)
    requires Valid(s) && 0 <= offset < s.fileSize
    ensures Valid(res)
  {
    hide ValidReader;
    var remaining := s.fileSize - offset;
    s.(frameRemaining := Min(s.maxPerAck, (remaining + MAX_SUBPACKET - 1) / MAX_SUBPACKET),
       frameNeedsHeader := true, state := NeedFileData,
       request := Some(Request(offset, Min(MAX_SUBPACKET, remaining))))
  }

  /** The receiver names the position it wants next, in a ZRPOS or a ZACK. */
  function OnZrpos(s: Sender, offset: int): (res: Sender)
    requires Valid(s) && s.request.None? && 0 <= offset <= MAX_COUNT
    ensures Valid(res)
  {
    hide ValidReader, ServePosition;
    if s.state.WaitReceiverInit? then s.Send(Zrqinit())
    else if !s.state.WaitFilePos? && !s.state.WaitFileAck? then s
    else ServePosition(s, offset)
  }

  /** The position is answered by the end of the file or a request for its data. */
  function ServePosition(s: Sender, offset: int): (res: Sender)
    requires Valid(s) && s.request.None? && 0 <= offset <= MAX_COUNT
    ensures Valid(res)
  {
    hide ValidReader, RequestData;
    var asked := s.(history := s.history + [Asked(offset)]);
    if offset >= s.fileSize then asked.Send(Eof(offset)).(state := WaitFileDone) else RequestData(asked, offset)
  }

  function OnZfin(s: Sender): (res: Sender)
    requires Valid(s) && s.request.None?
    ensures Valid(res)
  {
    if s.state.WaitFinish? then SayGoodbye(s) else s
  }

  function HandleHeader(s: Sender, h: Header): (res: (Sender, Option<Error>))
    requires Valid(s) && s.request.None?
    ensures Valid(res.0)
  {
    if h.frame == ZRINIT then OnZrinit(s, h)
    else if h.frame == ZRPOS || h.frame == ZACK then (OnZrpos(s, h.Count()), None)
    else if h.frame == ZFIN then (OnZfin(s), None)
    else (if s.state.WaitReceiverInit? then s.Send(Zrqinit()) else s, None)
  }

  lemma HandleHeaderKeepsReader(s: Sender, h: Header)
    requires Valid(s) && s.request.None?
    ensures HandleHeader(s, h).0.reader == s.reader
  {
    hide ValidReader, CountOf, FitsOutgoing, OnZrinit, OnZrpos;
    if h.frame == ZRINIT {
      OnZrinitKeepsReader(s, h);
    } else if h.frame == ZRPOS || h.frame == ZACK {
      OnZrposKeepsReader(s, h.Count());
    }
  }

  lemma OnZrinitKeepsReader(s: Sender, h: Header)
    requires Valid(s) && s.request.None?
    ensures OnZrinit(s, h).0.reader == s.reader
  {
    hide ValidReader, FitsOutgoing;
  }

  lemma OnZrposKeepsReader(s: Sender, offset: int)
    requires Valid(s) && s.request.None? && 0 <= offset <= MAX_COUNT
    ensures OnZrpos(s, offset).reader == s.reader
  {
    hide ValidReader;
  }

  datatype FeedResult = FeedResult(sender: Sender, consumed: nat, err: Option<Error>)

  function Later(f: FeedResult, n: nat): FeedResult { f.(consumed := f.consumed + n) }

  /** One header from the input, and whether the loop goes on after it. */
  function Round(s: Sender, input: seq<byte>): (res: (FeedResult, bool))
    requires Valid(s) && s.request.None?
    ensures Valid(res.0.sender) && res.0.consumed <= |input|
    ensures res.1 ==> res.0.err.None? && res.0.consumed > 0
  {
    hide HandleHeader, Read, Decoded;
    var found := Read(s.reader, input);
    var seen := s.(reader := found.reader);
    match Decoded(found.raw)
    case Failed(e) => (FeedResult(seen, found.consumed, Some(e)), false)
    case Pending => (FeedResult(seen, 0, None), false)
    case Found(h) =>
      var (next, err) := HandleHeader(seen, h);
      (FeedResult(next, found.consumed, err), err.None? && 0 < found.consumed < |input|)
  }

  predicate Busy(s: Sender) { s.HasOutgoing() || s.state.Done? || s.request.Some? }

  function FeedIncoming(s: Sender, input: seq<byte>): (res: FeedResult)
    requires Valid(s)
    ensures Valid(res.sender) && res.consumed <= |input|
    decreases |input|
  {
    hide Round, Valid;
    if Busy(s) then FeedResult(s, 0, None)
    else
      var (f, goesOn) := Round(s, input);
      if goesOn then Later(FeedIncoming(f.sender, input[f.consumed..]), f.consumed) else f
  }

  function OutgoingBytes(s: Sender): seq<byte>
    requires Valid(s)
  {
    match s.outgoing
    case Empty => []
    case Whole(m) => MessageBytes(m)
    case Cut(m) => var b := MessageBytes(m); if |b| <= CAPACITY then b else b[..CAPACITY]
  }

  function Drained(s: Sender): (res: Sender)
    requires Valid(s)
    ensures Valid(res)
  {
    s.(outgoing := Empty)
  }

  function PollEvent(s: Sender): (res: (Sender, Option<Event>))
    ensures Valid(s) ==> Valid(res.0)
  {
    (s.(event := None), s.event)
  }
}
