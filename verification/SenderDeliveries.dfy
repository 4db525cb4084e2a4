/** What the owner of a sender puts on the line: from the position the receiver asked for, the bytes of the current
    file, as many as one acknowledgement covers; and after one file the next. */
module SenderDeliveries {
  import opened Bytes
  import opened Options
  import opened Sequences
  import opened Headers
  import SessionSpec
  import S = SenderSpec
  import SenderReplies
  import opened SenderFrames
  import opened SenderDriver

  /** The data of all chunks ever sent. */
  function Sent(h: seq<S.Entry>): seq<byte> {
    if h == [] then []
    else Sent(Front(h)) + if Last(h).Sent? && Last(h).message.Chunk? then Last(h).message.data else []
  }

  lemma SentOneMore(h: seq<S.Entry>, m: S.Message)
    ensures Sent(h + [S.Sent(m)]) == Sent(h) + if m.Chunk? then m.data else []
  {
    assert Front(h + [S.Sent(m)]) == h;
  }

  function Min(a: int, b: int): int { if a < b then a else b }

  /** The chunk that answers a request. */
  lemma FedFromFile(s: S.Sender, offset: int, quota: nat, content: seq<byte>)
    requires MayCarry(s, offset, quota) && |content| >= s.fileSize
    ensures s.request.Some? && 0 <= offset < s.fileSize
    ensures var n := Min(8192, s.fileSize - offset);
      && n >= 1 && s.request.value.len == n && Available(content, offset, n) == content[offset..offset + n]
      && var t := S.FeedFile(s, content[offset..offset + n]).0;
         && t.history == s.history + [S.Sent(t.outgoing.message)] && t.outgoing.Whole? && t.outgoing.message.Chunk?
         && t.outgoing.message.data == content[offset..offset + n]
         && t.fileSize == s.fileSize
         && (if quota == 1 || offset + n == s.fileSize then t.state.WaitFileAck? && t.request.None?
             else MayCarry(S.Drained(t), offset + n, quota - 1) && n == 8192)
  {
    hide ValidReader, S.MessageBytes;
  }

  lemma AnswersOnce(files: seq<SendFile>, o: Owner, data: seq<byte>)
    requires S.Valid(o.s) && o.s.outgoing.Empty? && o.s.request.Some? && Requested(files, o) == data && data != []
    ensures S.Valid(S.FeedFile(o.s, data).0)
    ensures Answered(files, o) == Answered(files, Written(o.(s := S.FeedFile(o.s, data).0)))
  {
    hide S.Valid, S.FeedFile, S.OutgoingBytes, Requested;
  }

  lemma NothingToAnswer(files: seq<SendFile>, o: Owner)
    requires S.Valid(o.s) && o.s.outgoing.Empty? && o.s.request.None?
    ensures Answered(files, o) == (o, None)
  {}

  /** One frame, answered to its end: a stretch of the current file from the position asked for, 8192 bytes for each
      subpacket that the receiver takes before an acknowledgement, or up to the end of the file. */
  lemma {:induction false} FrameIsStretchOfFile(files: seq<SendFile>, o: Owner, offset: int, quota: nat)
    requires MayCarry(o.s, offset, quota) && o.index < |files| && |files[o.index].content| >= o.s.fileSize
    ensures S.Valid(o.s) && o.s.outgoing.Empty? && 0 <= offset < o.s.fileSize
    ensures var (p, failure) := Answered(files, o);
      var n, content := Min(8192 * quota, o.s.fileSize - offset), files[o.index].content;
      && failure.None? && p.index == o.index && p.s.state.WaitFileAck? && o.line <= p.line
      && Sent(p.s.history) == Sent(o.s.history) + content[offset..offset + n]
    decreases quota
  {
    hide S.FeedFile, S.OutgoingBytes, MayCarry, Sent, Answered, S.Valid, Requested, Available;
    var content := files[o.index].content;
    CarryIsValid(o.s, offset, quota);
    FedFromFile(o.s, offset, quota, content);
    var n := Min(8192, o.s.fileSize - offset);
    var data := content[offset..offset + n];
    var t := S.FeedFile(o.s, data).0;
    RequestedIs(files, o, offset, quota);
    AnswersOnce(files, o, data);
    SentOneMore(o.s.history, t.outgoing.message);
    var next := Written(o.(s := t));
    if quota == 1 || offset + n == o.s.fileSize {
      NothingToAnswer(files, next);
    } else {
      FrameIsStretchOfFile(files, next, offset + n, quota - 1);
      Stretch(content, offset, n, Min(8192 * (quota - 1), o.s.fileSize - offset - n));
    }
  }

  lemma Stretch(content: seq<byte>, offset: int, n: nat, m: nat)
    requires 0 <= offset && offset + n + m <= |content|
    ensures content[offset..offset + n] + content[offset + n..offset + n + m] == content[offset..offset + n + m]
  {}

  lemma RequestedIs(files: seq<SendFile>, o: Owner, offset: int, quota: nat)
    requires MayCarry(o.s, offset, quota) && o.index < |files|
    ensures Requested(files, o) == Available(files[o.index].content, offset, o.s.request.value.len)
  {}

  /** The receiver names a position inside the file: all of this goes out at once. */
  lemma PositionIsServed(files: seq<SendFile>, o: Owner, h: Header)
    requires SenderReplies.Asked(o.s, h) && (o.s.state.WaitFilePos? || o.s.state.WaitFileAck?) && o.s.event.None?
    requires (h.frame == 9 || h.frame == 3) && h.Count() < o.s.fileSize
    requires o.index < |files| && |files[o.index].content| >= o.s.fileSize
    ensures S.Valid(o.s)
    ensures var (p, over, failure) := ConsumedOwner(files, o, Encode(h));
      var from, content := h.Count(), files[o.index].content;
      && failure.None? && !over && p.index == o.index && p.s.state.WaitFileAck? && o.line <= p.line
      && Sent(p.s.history) == Sent(o.s.history) + content[from..from + Min(8192 * o.s.maxPerAck, o.s.fileSize - from)]
  {
    hide S.Valid, S.FeedIncoming, S.HandleHeader, Answered, Encode, CountOf, Sent, MayCarry, S.OutgoingBytes, Written;
    assert S.Valid(o.s) by {
      AskedIsValid(o.s, h);
    }
    AsksFromPosition(o.s, h);
    SessionSpec.SenderTakes(o.s, h);
    var asked := o.(s := S.HandleHeader(o.s, h).0);
    SentNoMore(o.s.history, h.Count());
    FrameIsStretchOfFile(files, asked, h.Count(), o.s.maxPerAck);
    WrittenNothing(asked);
    AnsweredQuietly(files, asked);
    FlushesAnswers(files, asked);
    WrittenKeeps(Answered(files, asked).0);
  }

  lemma WrittenKeeps(o: Owner)
    requires S.Valid(o.s)
    ensures var p := Written(o);
      p.index == o.index && p.s.state == o.s.state && p.s.history == o.s.history && o.line <= p.line
  {
    hide S.Valid, S.OutgoingBytes;
  }

  /** Without an event a flush is nothing but answers, and what they leave on the line. */
  lemma FlushesAnswers(files: seq<SendFile>, o: Owner)
    requires S.Valid(o.s) && o.s.outgoing.Empty? && Written(o) == o
    ensures var (p, failure) := Answered(files, o);
      && S.Valid(p.s)
      && (p.s.event.None? && failure.None? ==> FlushedOwner(files, o) == (Written(p), false, None))
  {
    hide S.Valid, Answered, Written;
    AnsweredIsValid(files, o);
  }

  lemma AskedIsValid(s: S.Sender, h: Header)
    requires SenderReplies.Asked(s, h)
    ensures S.Valid(s) && !S.Busy(s) && s.reader == IDLE && h.encoding == ZHEX && h.frame <= ZSTDERR && s.maxPerAck >= 1
    ensures s.request.None?
  {}

  lemma AsksFromPosition(s: S.Sender, h: Header)
    requires SenderReplies.Asked(s, h) && (s.state.WaitFilePos? || s.state.WaitFileAck?)
    requires (h.frame == 9 || h.frame == 3) && h.Count() < s.fileSize
    ensures S.Valid(s) && s.request.None?
    ensures var (t, err) := S.HandleHeader(s, h);
      && err.None? && s.maxPerAck >= 1 && MayCarry(t, h.Count(), s.maxPerAck)
      && t.fileSize == s.fileSize && t.event == s.event && t.history == s.history + [S.Asked(h.Count())]
  {
    hide ValidReader, CountOf;
  }

  lemma SentNoMore(h: seq<S.Entry>, offset: int)
    ensures Sent(h + [S.Asked(offset)]) == Sent(h)
  {
    assert Front(h + [S.Asked(offset)]) == h;
  }

  lemma WrittenNothing(o: Owner)
    requires S.Valid(o.s) && o.s.outgoing.Empty?
    ensures Written(o) == o
  {
    hide S.Valid;
    assert o.line + [] == o.line;
  }

  /** Answering requests raises no event. */
  lemma {:induction false} AnsweredQuietly(files: seq<SendFile>, o: Owner)
    requires S.Valid(o.s) && o.s.outgoing.Empty? && o.s.event.None?
    ensures Answered(files, o).0.s.event.None?
    decreases if o.s.request.Some? then o.s.fileSize - o.s.request.value.offset else -1
  {
    hide S.Valid, S.FeedFile, S.OutgoingBytes, Requested;
    if o.s.request.Some? && Requested(files, o) != [] {
      RequestedFits(files, o);
      FeedingGoesOn(o.s, Requested(files, o));
      FeedingIsQuiet(o.s, Requested(files, o));
      AnsweredQuietly(files, Written(o.(s := S.FeedFile(o.s, Requested(files, o)).0)));
    }
  }

  lemma FeedingIsQuiet(s: S.Sender, data: seq<byte>)
    requires S.Valid(s)
    ensures S.FeedFile(s, data).0.event == s.event
  {
    hide ValidReader;
  }

  /** Once a file is complete the next one is announced, with its own name and size; after the last one the session is
      closed. */
  lemma NextIsAnnounced(files: seq<SendFile>, o: Owner)
    requires Orderly(o.s) && o.s.event == Some(S.FileComplete)
    ensures var (p, over, failure) := Reacted(files, o);
      && !over && p.index == o.index + 1 && p.line == o.line
      && (failure.None? ==>
            S.Valid(p.s) && p.s.event.None? &&
            if p.index < |files| then
              && 0 <= files[p.index].size
              && p.s.state.WaitFilePos? && p.s.outgoing == S.Whole(S.File(files[p.index].name, files[p.index].size))
            else p.s.state.WaitFinish? && S.OutgoingBytes(p.s) == Encode(Header(ZHEX, 8, 0, 0, 0, 0)))
  {
    hide ValidReader, Encode;
  }
}
