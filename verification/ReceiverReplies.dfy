/** What a receiver makes of each header, state by state, from the bytes of the header to the bytes of the answer. */
module ReceiverReplies {
  import opened Bytes
  import opened Options
  import opened Headers
  import opened Subpackets
  import opened SessionSpec
  import opened ReceiverSpec
  import opened Openings
  import opened FrameEnds
  import FileInfo

  /** A receiver between frames that has nothing to say yet is given one binary header. */
  ghost predicate Asked(r: Receiver, h: Header) {
    Attentive(r) && !r.Reading() && r.answer.None? && h.frame <= ZSTDERR && (h.encoding == ZBIN || h.encoding == ZBIN32)
  }

  lemma FedHeader(r: Receiver, h: Header)
    requires Asked(r, h)
    ensures FeedIncoming(r, Encode(h)) == FeedResult(HandleHeader(r, h), |Encode(h)|, None)
  {
    hide Read, DecodeHeader, Body, HandleHeader;
    ReadCore(IDLE, h, []);
    DecodeBody(h);
    assert r.(reader := IDLE) == r;
    assert Encode(h) == Core(h) && Core(h) + [] == Core(h);
  }

  /** A new receiver introduces itself without being asked. */
  lemma SpeaksFirst()
    ensures var r := NewReceiver();
      && Attentive(r) && r.state.SessionBegin? && r.events == []
      && OutgoingBytes(r) == [42, 42, 24, 66, 48, 49, 48, 48, 50, 48, 48, 48, 50, 51, 51, 56, 57, 54, 13, 10, 17]
  {
    hide Encode;
    ZrinitOnTheLine();
  }

  /** Before the first file a ZRQINIT, and a data frame, are answered by the receiver's introduction. */
  lemma IntroducesItself(r: Receiver, h: Header)
    requires Asked(r, h) && r.state.SessionBegin? && (h.frame == 0 || h.frame == 10)
    ensures var f := FeedIncoming(r, Encode(h));
      && f.err.None? && f.receiver == r.(answer := f.receiver.answer)
      && OutgoingBytes(f.receiver) ==
           [42, 42, 24, 66, 48, 49, 48, 48, 50, 48, 48, 48, 50, 51, 51, 56, 57, 54, 13, 10, 17]
  {
    hide Encode, FeedIncoming, ValidReader, ValidSub;
    FedHeader(r, h);
    ZrinitOnTheLine();
  }

  /** A file may be announced at the start and between files: its metadata is read next. */
  lemma ReadsMetadata(r: Receiver, h: Header)
    requires Asked(r, h) && h.frame == 4
    ensures var f := FeedIncoming(r, Encode(h));
      && f.err.None? && f.receiver == r.(state := f.receiver.state, sub := f.receiver.sub)
      && (f.receiver.state.ReadingMetadata? <==> r.state.SessionBegin? || r.state.FileBegin?)
      && (if f.receiver.state.ReadingMetadata? then AtStart(f.receiver.sub) && f.receiver.sub.encoding == h.encoding
          else f.receiver == r)
  {
    hide Encode, FeedIncoming, ValidReader, ValidSub;
    FedHeader(r, h);
  }

  /** Once a file is open, a data frame at the position reached is taken; any other is refused, and the position
      reached is asked for. */
  lemma TakesFrameAtPosition(r: Receiver, h: Header)
    requires Asked(r, h) && h.frame == 10 && (r.state.FileBegin? || r.state.WaitingSubpacket?)
    ensures var f := FeedIncoming(r, Encode(h));
      && f.err.None? && f.receiver.events == r.events && f.receiver.count == r.count
      && (if h.Count() == r.count then InFrame(f.receiver) && f.receiver.sub.encoding == h.encoding
                                      && OutgoingBytes(f.receiver) == []
          else f.receiver.state == r.state && OutgoingBytes(f.receiver) == Encode(WithCount(ZHEX, 9, r.count)))
  {
    hide Encode, FeedIncoming, ValidReader, CountOf;
    FedHeader(r, h);
  }

  /** The end of the file counts only behind a closed frame and at the position reached. */
  lemma CompletesAtPosition(r: Receiver, h: Header)
    requires Asked(r, h) && h.frame == 11
    ensures var f := FeedIncoming(r, Encode(h));
      && f.err.None?
      && (if r.state.WaitingSubpacket? && h.Count() == r.count
          then f.receiver.events == r.events + [FileComplete] && f.receiver.state.FileBegin?
               && f.receiver.answer == Some(Zrinit())
          else f.receiver == r)
  {
    hide Encode, FeedIncoming, ValidReader, ValidSub, CountOf;
    FedHeader(r, h);
  }

  /** A ZFIN closes the session between files and behind any frame. */
  lemma ClosesSession(r: Receiver, h: Header)
    requires Asked(r, h) && h.frame == 8
    ensures var f := FeedIncoming(r, Encode(h));
      && f.err.None?
      && (if r.state.WaitingSubpacket? || r.state.FileBegin?
          then f.receiver.events == r.events + [SessionComplete] && f.receiver.state.SessionEnd?
               && OutgoingBytes(f.receiver) == Encode(Header(ZHEX, 8, 0, 0, 0, 0))
          else f.receiver == r)
  {
    hide Encode, FeedIncoming, ValidReader, ValidSub;
    FedHeader(r, h);
  }

  /** All other headers are passed over. */
  lemma PassesOver(r: Receiver, h: Header)
    requires Asked(r, h) && h.frame !in {4, 8, 11}
    requires (h.frame == 0 ==> !r.state.SessionBegin?) && (h.frame == 10 ==> r.state.SessionEnd?)
    ensures FeedIncoming(r, Encode(h)) == FeedResult(r, |Encode(h)|, None)
  {
    hide Encode, FeedIncoming, ValidReader, ValidSub;
    FedHeader(r, h);
  }

  /** With four events, or with file data, to hand out a receiver takes nothing in; with less it listens. */
  lemma WaitsToBeEmptied(r: Receiver, input: seq<byte>)
    requires Valid(r) && r.pendingErr.None?
    ensures |r.events| >= 4 || r.HasFileData() ==> FeedIncoming(r, input) == FeedResult(r, 0, None)
    ensures |r.events| <= 3 && !r.HasFileData() ==> !Busy(r)
  {
    hide Round, Valid;
  }

  // ----- metadata -----

  /** The receiver reads the record of a file. */
  ghost predicate InMetadata(r: Receiver) { Attentive(r) && r.state.ReadingMetadata? && AtStart(r.sub) }

  /** A record with a name and a size: the file starts, from its beginning. */
  lemma StartsFile(r: Receiver, name: seq<byte>, size: nat, more: seq<byte>, kind: byte)
    requires InMetadata(r) && r.answer.None? && 0x68 <= kind <= 0x6b
    requires name != [] && 0 !in name && 0 !in more && size <= MAX_COUNT
    requires |name + [0] + (FileInfo.Decimal(size) + [32] + more) + [0]| <= MAX_SUBPACKET
    ensures var info := name + [0] + (FileInfo.Decimal(size) + [32] + more) + [0];
      var f := FeedIncoming(r, Subpacket(r.sub.encoding, info, kind)); var t := f.receiver;
      && f.err.None? && t.state.FileBegin? && t.events == r.events + [FileStart]
      && t.fileName == name && t.fileSize == size && t.count == 0
      && OutgoingBytes(t) == Encode(WithCount(ZHEX, 9, 0))
  {
    hide Subpacket, Encode, FeedLoop, Checksum, ValidReader, FileInfo.ParseSize, FileInfo.Before, FileInfo.Decimal;
    var field := FileInfo.Decimal(size) + [32] + more;
    var info := name + [0] + field + [0];
    FileInfo.SizeEndsAtSpace(name, size, more, []);
    assert info + [] == info && info == name + [0] + (field + [0]);
    FileInfo.BeforeAppend(name, 0, field + [0]);
    ReceiverTakesMetadata(r, info, kind);
  }

  /** A record without a name is an error. */
  lemma NeedsName(r: Receiver, rest: seq<byte>, kind: byte)
    requires InMetadata(r) && 0x68 <= kind <= 0x6b && |rest| < MAX_SUBPACKET
    ensures FeedIncoming(r, Subpacket(r.sub.encoding, [0] + rest, kind)).err == Some(MalformedFileName)
  {
    hide Subpacket, ReadSub, Checksum, ValidReader;
    FramingRoundTrip(r.sub, [0] + rest, kind, []);
    assert Subpacket(r.sub.encoding, [0] + rest, kind) + [] == Subpacket(r.sub.encoding, [0] + rest, kind);
  }

  /** A size that cannot be read is an error too; the name is remembered all the same. */
  lemma NeedsSize(r: Receiver, name: seq<byte>, rest: seq<byte>, kind: byte)
    requires InMetadata(r) && 0x68 <= kind <= 0x6b && name != [] && 0 !in name
    requires |name + [0] + rest| <= MAX_SUBPACKET && FileInfo.ParseSize(name + [0] + rest).Err?
    ensures var f := FeedIncoming(r, Subpacket(r.sub.encoding, name + [0] + rest, kind));
      && f.err == Some(FileInfo.ParseSize(name + [0] + rest).error)
      && f.receiver.fileName == name && f.receiver.fileSize == r.fileSize && f.receiver.events == r.events
      && f.receiver.answer == r.answer && f.receiver.state == r.state && f.receiver.count == r.count
  {
    hide Subpacket, ReadSub, Checksum, ValidReader, FileInfo.ParseSize, FileInfo.Before;
    var info := name + [0] + rest;
    FramingRoundTrip(r.sub, info, kind, []);
    assert Subpacket(r.sub.encoding, info, kind) + [] == Subpacket(r.sub.encoding, info, kind);
    FileInfo.BeforeAppend(name, 0, rest);
  }
}
