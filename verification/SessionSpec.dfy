/** A lossless session: one sender and one receiver exchange messages in turn, as the owner of a
    transfer drives them. What each exchange leads to, phase by phase. */
module SessionSpec {
  import opened Bytes
  import opened Options
  import opened Headers
  import opened Subpackets
  import opened Escape
  import FileInfo
  import R = ReceiverSpec
  import S = SenderSpec

  datatype SourceFile = SourceFile(name: seq<byte>, content: seq<byte>)

  datatype Delivered = Delivered(name: seq<byte>, size: int, content: seq<byte>)

  /** The files a session can announce: not larger than a count, and with a name that the file information
      record can hold. */
  predicate Legal(f: SourceFile) {
    && |f.content| <= MAX_COUNT
    && f.name != [] && 0 !in f.name
    && |FileInfo.Encode(f.name, |f.content|)| <= MAX_SUBPACKET
  }

  /** The files it also delivers: those with content. */
  predicate Sendable(f: SourceFile) { Legal(f) && f.content != [] }

  function Whole(f: SourceFile): Delivered { Delivered(f.name, |f.content|, f.content) }

  // ----- the receiver's owner -----

  /** `open` is the file being written; `files` are the finished ones. */
  datatype Inbox = Inbox(open: Option<Delivered>, files: seq<Delivered>, sessions: nat)

  function Note(box: Inbox, event: R.Event, name: seq<byte>, size: int): Inbox {
    match event
    case FileStart => box.(open := Some(Delivered(name, size, [])))
    case FileComplete =>
      if box.open.Some? then box.(open := None, files := box.files + [box.open.value]) else box
    case SessionComplete => box.(sessions := box.sessions + 1)
  }

  function NoteAll(box: Inbox, events: seq<R.Event>, name: seq<byte>, size: int): Inbox
    decreases |events|
  {
    if events == [] then box else NoteAll(Note(box, events[0], name, size), events[1..], name, size)
  }

  lemma NoteOne(box: Inbox, event: R.Event, name: seq<byte>, size: int)
    ensures NoteAll(box, [event], name, size) == Note(box, event, name, size)
  {
    assert [event][1..] == [];
  }

  function Write(box: Inbox, data: seq<byte>): Inbox {
    if data == [] || box.open.None? then box
    else box.(open := Some(box.open.value.(content := box.open.value.content + data)))
  }

  // ----- one exchange -----

  datatype Exchanged = Exchanged(
    s: S.Sender, r: R.Receiver, events: seq<R.Event>, data: seq<byte>,
    senderEvent: Option<S.Event>, receiverErr: Option<Error>, senderErr: Option<Error>)

  /** The sender's output goes to the receiver; its events and data are taken; its answer goes back. */
  function Exchange(s: S.Sender, r: R.Receiver): (x: Exchanged)
    requires S.Valid(s) && R.Valid(r)
    ensures S.Valid(x.s) && R.Valid(x.r)
  {
    hide S.FeedIncoming, R.FeedIncoming, S.OutgoingBytes, R.OutgoingBytes, S.Valid, R.DrainFile;
    var fed := R.FeedIncoming(r, S.OutgoingBytes(s));
    var polled := fed.receiver.(events := []);
    var (drained, data) := R.DrainFile(polled);
    var (answered, reply) := R.DrainOutgoing(drained);
    var back := S.FeedIncoming(S.Drained(s), reply);
    var (t, event) := S.PollEvent(back.sender);
    Exchanged(t, answered, fed.receiver.events, data, event, fed.err, back.err)
  }

  // ----- feeding a receiver -----

  ghost predicate Attentive(r: R.Receiver) {
    R.Valid(r) && !R.Busy(r) && r.pendingErr.None? && r.reader == IDLE
  }

  /** A header the receiver answers at once. */
  lemma ReceiverAnswers(r: R.Receiver, h: Header)
    requires Attentive(r) && !r.Reading() && KnownEncoding(h.encoding) && h.frame <= ZSTDERR
    requires R.HandleHeader(r, h).answer.Some?
    ensures R.FeedIncoming(r, Encode(h)) == R.FeedResult(R.HandleHeader(r, h), |Core(h)|, None)
  {
    hide Read, DecodeHeader, Body, R.HandleHeader;
    ReadCore(IDLE, h, Trailer(h));
    DecodeBody(h);
    assert r.(reader := IDLE) == r;
  }

  /** A header that makes the receiver read the subpacket behind it. */
  lemma ReceiverReadsOn(r: R.Receiver, h: Header, rest: seq<byte>)
    requires Attentive(r) && !r.Reading() && KnownEncoding(h.encoding) && h.encoding != ZHEX && h.frame <= ZSTDERR
    requires rest != []
    requires var t := R.HandleHeader(r, h); t.answer.None? && |t.events| < R.MAX_EVENTS
    ensures R.FeedIncoming(r, Encode(h) + rest) == R.Later(R.FeedLoop(R.HandleHeader(r, h), rest), |Encode(h)|)
  {
    hide Read, DecodeHeader, Body, R.HandleHeader;
    ReadCore(IDLE, h, rest);
    DecodeBody(h);
    assert r.(reader := IDLE) == r;
    assert Encode(h) == Core(h);
    assert (Core(h) + rest)[|Core(h)|..] == rest;
  }

  /** The state in which a subpacket has just passed its checksum. */
  function Passed(r: R.Receiver, data: seq<byte>, kind: byte): R.Receiver {
    r.(sub := Sub(Checking, data, r.sub.encoding, kind, false, false, Checksum(r.sub.encoding, data + [kind])))
  }

  lemma ReceiverTakesMetadata(r: R.Receiver, data: seq<byte>, kind: byte)
    requires R.Valid(r) && !R.Busy(r) && r.state.ReadingMetadata? && AtStart(r.sub)
    requires |data| <= MAX_SUBPACKET && IsSubpacketType(kind)
    requires R.ParseZfile(Passed(r, data, kind)).1.None?
    ensures R.FeedLoop(r, Subpacket(r.sub.encoding, data, kind)) ==
      R.FeedResult(R.BeginFile(R.ParseZfile(Passed(r, data, kind)).0), |Subpacket(r.sub.encoding, data, kind)|, None)
  {
    hide ReadSub, Subpacket, Checksum, R.ParseZfile;
    FramingRoundTrip(r.sub, data, kind, []);
    assert Subpacket(r.sub.encoding, data, kind) + [] == Subpacket(r.sub.encoding, data, kind);
  }

  lemma ReceiverTakesData(r: R.Receiver, data: seq<byte>, kind: byte)
    requires R.Valid(r) && !R.Busy(r) && r.state.ReadingSubpacket? && AtStart(r.sub)
    requires 1 <= |data| <= MAX_SUBPACKET && IsSubpacketType(kind)
    ensures R.FeedLoop(r, Subpacket(r.sub.encoding, data, kind)) ==
      R.FeedResult(R.Accept(Passed(r, data, kind)), |Subpacket(r.sub.encoding, data, kind)|, None)
  {
    hide ReadSub, Subpacket, Checksum;
    FramingRoundTrip(r.sub, data, kind, []);
    assert Subpacket(r.sub.encoding, data, kind) + [] == Subpacket(r.sub.encoding, data, kind);
  }

  // ----- feeding a sender -----

  /** The sender takes the answer; the line end behind a hexadecimal header is noise. */
  lemma SenderTakes(s: S.Sender, h: Header)
    requires S.Valid(s) && !S.Busy(s) && s.reader == IDLE && h.encoding == ZHEX && h.frame <= ZSTDERR
    requires S.HandleHeader(s, h).1.None?
    ensures var f := S.FeedIncoming(s, Encode(h)); f.sender == S.HandleHeader(s, h).0 && f.err.None?
  {
    hide DecodeHeader, Body, S.HandleHeader, Core, Trailer, Read, S.Valid, S.Round;
    var t := S.HandleHeader(s, h).0;
    S.HandleHeaderKeepsReader(s, h);
    LineEndIsNoise(h);
    SenderReadsHeader(s, h);
    assert (Core(h) + Trailer(h))[|Core(h)|..] == Trailer(h);
    if !S.Busy(t) {
      SenderReadsNoise(t, Trailer(h));
    }
  }

  lemma SenderReadsHeader(s: S.Sender, h: Header)
    requires S.Valid(s) && s.request.None? && s.reader == IDLE && h.encoding == ZHEX && h.frame <= ZSTDERR
    requires S.HandleHeader(s, h).1.None?
    ensures S.Round(s, Encode(h)) == (S.FeedResult(S.HandleHeader(s, h).0, |Core(h)|, None), true)
  {
    hide DecodeHeader, Body, S.HandleHeader, Core, Trailer, Read, S.Valid;
    ReadCore(IDLE, h, Trailer(h));
    DecodeBody(h);
    LineEndIsNoise(h);
    assert s.(reader := IDLE) == s;
  }

  lemma SenderReadsNoise(s: S.Sender, noise: seq<byte>)
    requires S.Valid(s) && s.request.None? && s.reader == IDLE && Read(IDLE, noise) == ReadResult(IDLE, |noise|, More)
    ensures S.Round(s, noise) == (S.FeedResult(s, 0, None), false)
  {
    hide S.HandleHeader, Read, S.Valid;
    assert s.(reader := IDLE) == s;
  }

  lemma LineEndIsNoise(h: Header)
    requires h.encoding == ZHEX
    ensures |Core(h)| > 0 && |Trailer(h)| > 0
    ensures Read(IDLE, Trailer(h)) == ReadResult(IDLE, |Trailer(h)|, More)
  {
    hide Body;
    ReadNoise(IDLE, Trailer(h));
  }

  lemma SenderTakesNothing(s: S.Sender)
    requires S.Valid(s) && s.reader == IDLE
    ensures S.FeedIncoming(s, []) == S.FeedResult(s, 0, None)
  {
    assert s.(reader := IDLE) == s;
  }
}
