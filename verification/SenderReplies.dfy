/** What a sender makes of each header, state by state, from the bytes of the header to the bytes of its own
    message. How it cuts files into frames is in `SenderFrames`. */
module SenderReplies {
  import opened Bytes
  import opened Options
  import opened Headers
  import opened SenderSpec
  import opened Openings
  import SessionSpec

  /** A sender that has nothing on the line is given one header. */
  ghost predicate Asked(s: Sender, h: Header) {
    Valid(s) && !Busy(s) && s.reader == IDLE && h.encoding == ZHEX && h.frame <= ZSTDERR
  }

  const ZRQINIT_LINE: seq<byte> :=
    [42, 42, 24, 66, 48, 48, 48, 48, 48, 48, 48, 48, 48, 48, 48, 48, 48, 48, 13, 10, 17]

  /** Only the side that starts a session calls the other one before anything has come from it. */
  lemma CallsFirst(initiator: bool)
    ensures var s := NewSender(initiator);
      && Valid(s) && s.state.WaitReceiverInit? && !s.hasFile && s.event.None?
      && OutgoingBytes(s) == if initiator then ZRQINIT_LINE else []
  {
    hide Encode;
    ZrqinitOnTheLine();
  }

  /** Before the receiver has introduced itself everything but its introduction and a ZFIN is answered by calling it
      again. */
  lemma CallsAgain(s: Sender, h: Header)
    requires Asked(s, h) && s.state.WaitReceiverInit? && h.frame != 1 && h.frame != 8
    ensures var f := FeedIncoming(s, Encode(h));
      && f.err.None? && f.sender == s.(outgoing := f.sender.outgoing, history := f.sender.history)
      && OutgoingBytes(f.sender) == ZRQINIT_LINE
  {
    hide Encode, FeedIncoming, ValidReader, CountOf;
    SessionSpec.SenderTakes(s, h);
    ZrqinitOnTheLine();
  }

  /** The receiver introduces itself: the file that was started is announced; without one the sender is ready, or
      closes the session if it was asked to. */
  lemma AnnouncesFile(s: Sender, h: Header)
    requires Asked(s, h) && s.state.WaitReceiverInit? && h.frame == 1
    requires s.hasFile ==> FitsOutgoing(s.fileName, s.fileSize)
    ensures var f := FeedIncoming(s, Encode(h)); var t := f.sender;
      && f.err.None? && t.event == s.event
      && (if s.hasFile then t.state.WaitFilePos? && OutgoingBytes(t) == MessageBytes(File(s.fileName, s.fileSize))
          else if s.finishRequested then t.state.WaitFinish? && OutgoingBytes(t) == Encode(Header(ZHEX, 8, 0, 0, 0, 0))
          else t.state.ReadyForFile? && OutgoingBytes(t) == [])
  {
    hide Encode, FeedIncoming, ValidReader, FitsOutgoing;
    SessionSpec.SenderTakes(s, h);
  }

  /** The receiver introduces itself again behind the end of a file: the file is complete. */
  lemma CompletesFile(s: Sender, h: Header)
    requires Asked(s, h) && s.state.WaitFileDone? && h.frame == 1
    ensures var f := FeedIncoming(s, Encode(h)); var t := f.sender;
      && f.err.None? && t.event == Some(FileComplete) && !t.hasFile
      && (if s.finishRequested then t.state.WaitFinish? && OutgoingBytes(t) == Encode(Header(ZHEX, 8, 0, 0, 0, 0))
          else t.state.ReadyForFile? && OutgoingBytes(t) == [])
  {
    hide Encode, FeedIncoming, ValidReader;
    SessionSpec.SenderTakes(s, h);
  }

  /** A position at or behind the end of the file is answered by the end of the file at that position. */
  lemma EndsFile(s: Sender, h: Header)
    requires Asked(s, h) && (s.state.WaitFilePos? || s.state.WaitFileAck?) && (h.frame == 9 || h.frame == 3)
    requires h.Count() >= s.fileSize
    ensures var f := FeedIncoming(s, Encode(h)); var t := f.sender;
      && f.err.None? && t.state.WaitFileDone? && t.event == s.event
      && OutgoingBytes(t) == Encode(WithCount(ZBIN32, 11, h.Count()))
  {
    hide Encode, FeedIncoming, ValidReader, CountOf;
    SessionSpec.SenderTakes(s, h);
  }

  /** A session that is being closed ends with the receiver's ZFIN, or with a late introduction: two letters O. */
  lemma SaysGoodbye(s: Sender, h: Header)
    requires Asked(s, h) && s.state.WaitFinish? && (h.frame == 1 || h.frame == 8)
    ensures var f := FeedIncoming(s, Encode(h)); var t := f.sender;
      f.err.None? && t.state.Done? && t.event == Some(SessionComplete) && OutgoingBytes(t) == [0x4f, 0x4f]
  {
    hide Encode, FeedIncoming, ValidReader;
    SessionSpec.SenderTakes(s, h);
  }

  /** Everything else is passed over, but for what an introduction says about the receiver. */
  lemma PassesOver(s: Sender, h: Header)
    requires Asked(s, h)
    requires h.frame == 1 ==> s.state.ReadyForFile? || s.state.WaitFilePos? || s.state.WaitFileAck?
    requires h.frame == 3 || h.frame == 9 ==> s.state.ReadyForFile? || s.state.WaitFileDone? || s.state.WaitFinish?
    requires h.frame == 8 ==> !s.state.WaitFinish?
    requires h.frame !in {1, 3, 8, 9} ==> !s.state.WaitReceiverInit?
    ensures var f := FeedIncoming(s, Encode(h));
      f.err.None? && f.sender == s.(maxPerAck := if h.frame != 1 then s.maxPerAck else if h.f3 % 4 >= 2 then 200 else 1)
  {
    hide Encode, FeedIncoming, ValidReader, CountOf;
    SessionSpec.SenderTakes(s, h);
  }

  // ----- calls from the owner -----

  /** A file can be started before the receiver has introduced itself, which only notes it, and between files, which
      announces it. */
  lemma StartsFile(s: Sender, name: seq<byte>, size: int)
    requires Valid(s) && (0 <= size <= MAX_COUNT ==> FitsOutgoing(name, size))
    ensures var (t, err) := StartFile(s, name, size);
      var mayStart := s.state.WaitReceiverInit? || s.state.ReadyForFile?;
      && (err == Some(UnsupportedState) <==> !mayStart)
      && (err == Some(CountOutOfRange) <==> mayStart && !(0 <= size <= 0xffff_ffff))
      && (err == Some(PendingOutgoing) <==> s.state.ReadyForFile? && 0 <= size <= 0xffff_ffff && !s.outgoing.Empty?)
      && (err.None? <==> mayStart && 0 <= size <= 0xffff_ffff && (s.state.ReadyForFile? ==> s.outgoing.Empty?))
      && (err.None? ==> t.hasFile && t.fileName == name && t.fileSize == size && t.event == s.event)
      && (err.None? && s.state.WaitReceiverInit? ==> t.state == s.state && t.outgoing == s.outgoing)
      && (err.None? && s.state.ReadyForFile? ==>
            t.state.WaitFilePos? && OutgoingBytes(t) == MessageBytes(File(name, size)))
  {
    hide ValidReader, FitsOutgoing, MessageBytes;
  }

  /** An announcement of more than 262144 bytes does not fit, and is an error. */
  lemma RefusesOverlongName(s: Sender, name: seq<byte>, size: int)
    requires Valid(s) && s.state.ReadyForFile? && s.outgoing.Empty? && 0 <= size <= MAX_COUNT
    ensures StartFile(s, name, size).1 ==
      if |MessageBytes(File(name, size))| > 262144 then Some(BufferOverflow) else None
  {
    hide ValidReader, MessageBytes;
  }

  /** The end of the session is noted, and between files it begins at once. */
  lemma FinishesSession(s: Sender)
    requires Valid(s)
    ensures var (t, err) := FinishSession(s);
      && t.finishRequested && (err.Some? <==> s.state.ReadyForFile? && !s.outgoing.Empty?)
      && (s.state.ReadyForFile? && s.outgoing.Empty? ==>
            t.state.WaitFinish? && OutgoingBytes(t) == Encode(Header(ZHEX, 8, 0, 0, 0, 0)))
      && (!s.state.ReadyForFile? ==> t == s.(finishRequested := true))
  {
    hide ValidReader, Encode;
  }

  /** Data is taken only on request, not more of it than was asked for, and one chunk at a time. */
  lemma TakesData(s: Sender, data: seq<byte>)
    requires Valid(s)
    ensures var (t, err) := FeedFile(s, data);
      && (err == Some(UnsupportedState) <==> s.request.None?)
      && (err == Some(UnexpectedEof) <==> s.request.Some? && !(1 <= |data| <= s.request.value.len))
      && (err == Some(PendingOutgoing) <==> s.request.Some? && 1 <= |data| <= s.request.value.len && !s.outgoing.Empty?)
      && (err.Some? ==> t == s)
  {
    hide ValidReader;
  }
}
