/** The sender as the source keeps it: an object whose fields the operations update in place, with a
    bounded outgoing buffer. Every method is proved equal to its transition in `SenderSpec`. */
module Senders {
  import opened Bytes
  import opened Options
  import opened Headers
  import opened Subpackets
  import opened Escape
  import S = SenderSpec

  class Sender {
    var state: S.State
    var fileName: seq<byte>
    var fileSize: int
    var hasFile: bool
    var request: Option<S.Request>
    var frameRemaining: int
    var frameNeedsHeader: bool
    var maxPerAck: int
    var outgoing: seq<byte>
    const reader: HeaderReader
    var event: Option<S.Event>
    var finishRequested: bool
    ghost var queued: S.Outgoing
    ghost var history: seq<S.Entry>

    ghost function Model(): S.Sender
      reads this, reader
    {
      S.Sender(state, fileName, fileSize, hasFile, request, frameRemaining, frameNeedsHeader, maxPerAck,
               queued, reader.Model(), event, finishRequested, history)
    }

    ghost predicate Valid()
      reads this, reader
    {
      && S.Valid(Model())
      && outgoing == S.OutgoingBytes(Model())
    }

    constructor (initiator: bool)
      ensures Valid() && Model() == S.NewSender(initiator) && fresh(reader)
    {
      hide Encode;
      state, fileName, fileSize, hasFile, request := S.WaitReceiverInit, [], 0, false, None;
      frameRemaining, frameNeedsHeader, maxPerAck := 0, false, S.MAX_PER_ACK;
      event, finishRequested := None, false;
      reader := new HeaderReader();
      if initiator {
        queued, history := S.Whole(S.Zrqinit()), [S.Sent(S.Zrqinit())];
        outgoing := S.MessageBytes(S.Zrqinit());
      } else {
        queued, history, outgoing := S.Empty, [], [];
      }
    }

    /** Appends byte by byte until the buffer is full. */
    method Extend(values: seq<byte>) returns (err: Option<Error>)
      requires |outgoing| <= S.CAPACITY
      modifies this`outgoing
      ensures var all := old(outgoing) + values;
        outgoing == if |all| <= S.CAPACITY then all else all[..S.CAPACITY]
      ensures err == if |old(outgoing) + values| <= S.CAPACITY then None else Some(BufferOverflow)
    {
      for i := 0 to |values|
        invariant outgoing == old(outgoing) + values[..i] && |outgoing| <= S.CAPACITY
      {
        if |outgoing| >= S.CAPACITY {
          assert outgoing == (old(outgoing) + values)[..S.CAPACITY];
          return Some(BufferOverflow);
        }
        outgoing := outgoing + [values[i]];
        assert values[..i] + [values[i]] == values[..i + 1];
      }
      assert values[..|values|] == values;
      err := None;
    }

    /** Replaces the outgoing buffer by a message that fits it. */
    method Queue(m: S.Message)
      requires S.ValidMessage(m) && !m.File?
      modifies this`outgoing, this`queued, this`history
      ensures outgoing == S.MessageBytes(m) && queued == S.Whole(m) && history == old(history) + [S.Sent(m)]
    {
      hide S.MessageBytes;
      S.MessagesFit(m);
      outgoing := [];
      var err := Extend(S.MessageBytes(m));
      assert [] + S.MessageBytes(m) == S.MessageBytes(m);
      queued, history := S.Whole(m), history + [S.Sent(m)];
    }

    method QueueZfile() returns (err: Option<Error>)
      requires Valid() && request.None?
      modifies this`outgoing, this`queued, this`history
      ensures Valid() && (Model(), err) == S.QueueZfile(old(Model()))
    {
      hide S.MessageBytes, ValidReader;
      ghost var m := S.File(fileName, fileSize);
      outgoing := [];
      err := Extend(S.MessageBytes(S.File(fileName, fileSize)));
      assert [] + S.MessageBytes(m) == S.MessageBytes(m);
      if err.None? {
        queued, history := S.Whole(m), history + [S.Sent(m)];
      } else {
        queued := S.Cut(m);
      }
    }

    method Announce() returns (err: Option<Error>)
      requires Valid() && request.None?
      modifies this`outgoing, this`queued, this`history, this`state
      ensures Valid() && (Model(), err) == S.Announce(old(Model()))
    {
      hide S.MessageBytes, ValidReader, S.QueueZfile;
      err := QueueZfile();
      if err.None? {
        state := S.WaitFilePos;
      }
    }

    method StartFile(name: seq<byte>, size: int) returns (err: Option<Error>)
      requires Valid()
      modifies this
      ensures Valid() && (Model(), err) == S.StartFile(old(Model()), name, size)
    {
      hide S.MessageBytes, ValidReader, S.Announce;
      if !state.WaitReceiverInit? && !state.ReadyForFile? {
        return Some(UnsupportedState);
      }
      if size < 0 || size > MAX_COUNT {
        return Some(CountOutOfRange);
      }
      fileName, fileSize, hasFile := name, size, true;
      request, frameRemaining, frameNeedsHeader := None, 0, false;
      err := None;
      if state.ReadyForFile? {
        HasOutgoing();
        if |outgoing| > 0 {
          return Some(PendingOutgoing);
        }
        err := Announce();
      }
    }

    /** The buffer is empty exactly when nothing is queued. */
    lemma HasOutgoing()
      requires Valid()
      ensures |outgoing| > 0 <==> Model().HasOutgoing()
    {
      hide S.MessageBytes;
      if queued.Whole? {
        S.MessagesFit(queued.message);
      } else if queued.Cut? {
        S.MessagesFit(queued.message);
      }
    }

    method FinishSession() returns (err: Option<Error>)
      requires Valid()
      modifies this
      ensures Valid() && (Model(), err) == S.FinishSession(old(Model()))
    {
      hide S.MessageBytes, ValidReader;
      finishRequested := true;
      err := None;
      if state.ReadyForFile? {
        HasOutgoing();
        if |outgoing| > 0 {
          return Some(PendingOutgoing);
        }
        Queue(S.Zfin());
        state := S.WaitFinish;
      }
    }

    method FeedFile(data: seq<byte>) returns (err: Option<Error>)
      requires Valid()
      modifies this
      ensures Valid() && (Model(), err) == S.FeedFile(old(Model()), data)
    {
      hide S.MessageBytes, ValidReader, S.Advance;
      if !state.NeedFileData? || request.None? {
        return Some(UnsupportedState);
      }
      var offset, len := request.value.offset, request.value.len;
      if |data| == 0 || |data| > len || |data| > fileSize - offset {
        return Some(UnexpectedEof);
      }
      HasOutgoing();
      if |outgoing| > 0 {
        return Some(PendingOutgoing);
      }
      var next := offset + |data|;
      var last := frameRemaining <= 1 || |data| < len || fileSize - next == 0;
      Queue(S.Chunk(if frameNeedsHeader then Some(offset) else None, data, if last then ZCRCW else ZCRCG));
      Advance(next, last);
      err := None;
    }

    method Advance(next: int, last: bool)
      requires Valid() && request.Some? && 0 <= next <= fileSize
      requires !last ==> next < fileSize && frameRemaining > 1
      modifies this`frameNeedsHeader, this`request, this`state, this`frameRemaining
      ensures Valid() && Model() == S.Advance(old(Model()), next, last)
    {
      hide S.MessageBytes, ValidReader;
      frameNeedsHeader := false;
      frameRemaining := frameRemaining - 1;
      if last {
        request, state, frameRemaining := None, S.WaitFileAck, 0;
      } else {
        request := Some(S.Request(next, S.Min(MAX_SUBPACKET, fileSize - next)));
      }
    }

    method IdleOrFinish()
      requires Valid() && request.None?
      modifies this`state, this`outgoing, this`queued, this`history
      ensures Valid() && Model() == S.IdleOrFinish(old(Model()))
    {
      hide S.MessageBytes, ValidReader;
      state := S.ReadyForFile;
      if finishRequested {
        Queue(S.Zfin());
        state := S.WaitFinish;
      }
    }

    method SayGoodbye()
      requires Valid() && request.None?
      modifies this`state, this`event, this`outgoing, this`queued, this`history
      ensures Valid() && Model() == S.SayGoodbye(old(Model()))
    {
      hide S.MessageBytes, ValidReader;
      Queue(S.Goodbye);
      state, event := S.Done, Some(S.SessionComplete);
    }

    method OnZrinit(h: Header) returns (err: Option<Error>)
      requires Valid() && request.None?
      modifies this
      ensures Valid() && (Model(), err) == S.OnZrinit(old(Model()), h)
    {
      hide S.MessageBytes, S.Valid, S.Announce, S.IdleOrFinish, S.SayGoodbye;
      NoteOverlap(S.CanOverlap(h));
      err := None;
      match state
      case WaitReceiverInit =>
        if hasFile {
          err := Announce();
        } else {
          IdleOrFinish();
        }
      case WaitFileDone =>
        NoteFileDone();
        IdleOrFinish();
      case WaitFinish => SayGoodbye();
      case _ =>
    }

    method NoteOverlap(overlap: bool)
      requires Valid() && request.None?
      modifies this`maxPerAck
      ensures Valid() && maxPerAck == if overlap then S.MAX_PER_ACK else 1
    {
      hide S.MessageBytes, ValidReader;
      maxPerAck := if overlap then S.MAX_PER_ACK else 1;
    }

    method NoteFileDone()
      requires Valid()
      modifies this`event, this`hasFile
      ensures Valid() && event == Some(S.FileComplete) && !hasFile
    {
      hide S.MessageBytes, ValidReader;
      event, hasFile := Some(S.FileComplete), false;
    }

    method RequestData(offset: int)
      requires Valid() && 0 <= offset < fileSize
      modifies this`frameNeedsHeader, this`request, this`state, this`frameRemaining
      ensures Valid() && Model() == S.RequestData(old(Model()), offset)
    {
      hide S.MessageBytes, ValidReader;
      var remaining := fileSize - offset;
      frameRemaining := S.Min(maxPerAck, (remaining + MAX_SUBPACKET - 1) / MAX_SUBPACKET);
      frameNeedsHeader := true;
      request := Some(S.Request(offset, S.Min(MAX_SUBPACKET, remaining)));
      state := S.NeedFileData;
    }

    method OnZrpos(offset: int)
      requires Valid() && request.None? && 0 <= offset <= MAX_COUNT
      modifies this
      ensures Valid() && Model() == S.OnZrpos(old(Model()), offset)
    {
      hide S.MessageBytes, ValidReader, S.RequestData;
      match state
      case WaitReceiverInit => Queue(S.Zrqinit());
      case WaitFilePos | WaitFileAck => ServePosition(offset);
      case _ =>
    }

    /** The position is answered by the end of the file or a request for its data. */
    method ServePosition(offset: int)
      requires Valid() && request.None? && 0 <= offset <= MAX_COUNT
      modifies this
      ensures Valid() && Model() == S.ServePosition(old(Model()), offset)
    {
      hide S.MessageBytes, ValidReader, S.RequestData;
      history := history + [S.Asked(offset)];
      if offset >= fileSize {
        Queue(S.Eof(offset));
        state := S.WaitFileDone;
      } else {
        RequestData(offset);
      }
    }

    method OnZfin()
      requires Valid() && request.None?
      modifies this
      ensures Valid() && Model() == S.OnZfin(old(Model()))
    {
      hide S.MessageBytes, ValidReader, S.SayGoodbye;
      if state.WaitFinish? {
        SayGoodbye();
      }
    }

    method HandleHeader(h: Header) returns (err: Option<Error>)
      requires Valid() && request.None?
      modifies this
      ensures Valid() && (Model(), err) == S.HandleHeader(old(Model()), h)
    {
      hide S.MessageBytes, ValidReader, S.OnZrinit, S.OnZrpos, S.OnZfin, CountOf;
      err := None;
      if h.frame == ZRINIT {
        err := OnZrinit(h);
      } else if h.frame == ZRPOS || h.frame == ZACK {
        OnZrpos(h.Count());
      } else if h.frame == ZFIN {
        OnZfin();
      } else if state.WaitReceiverInit? {
        Queue(S.Zrqinit());
      }
    }

    method FeedRound(input: seq<byte>, start: nat)
      returns (consumed: nat, err: Option<Error>, goesOn: bool)
      requires Valid() && start <= |input| && request.None?
      modifies this, reader
      ensures Valid() && start <= consumed <= |input|
      ensures (S.FeedResult(Model(), consumed - start, err), goesOn) == S.Round(old(Model()), input[start..])
    {
      hide S.MessageBytes, S.HandleHeader, Read, Decoded;
      consumed, err, goesOn := start, None, false;
      var next, outcome := reader.ReadFrom(input, start);
      match outcome {
        case Failed(e) => consumed, err := next, Some(e);
        case Pending =>
        case Found(h) =>
          consumed := next;
          err := HandleHeader(h);
          goesOn := err.None? && consumed != start && consumed != |input|;
      }
    }

    method FeedIncoming(input: seq<byte>) returns (consumed: nat, err: Option<Error>)
      requires Valid()
      modifies this, reader
      ensures Valid()
      ensures S.FeedResult(Model(), consumed, err) == S.FeedIncoming(old(Model()), input)
    {
      hide S.MessageBytes, S.Round, S.Valid;
      consumed, err := 0, None;
      assert input[0..] == input;
      HasOutgoing();
      while |outgoing| == 0 && !state.Done? && request.None?
        invariant Valid() && consumed <= |input| && err.None?
        invariant |outgoing| > 0 <==> Model().HasOutgoing()
        invariant S.FeedIncoming(old(Model()), input) == S.Later(S.FeedIncoming(Model(), input[consumed..]), consumed)
        decreases |input| - consumed
      {
        ghost var before := consumed;
        var goesOn;
        consumed, err, goesOn := FeedRound(input, consumed);
        if !goesOn {
          return;
        }
        HasOutgoing();
        assert input[before..][consumed - before..] == input[consumed..];
      }
    }

    method DrainOutgoing() returns (data: seq<byte>)
      requires Valid()
      modifies this`outgoing, this`queued
      ensures Valid() && Model() == S.Drained(old(Model())) && data == S.OutgoingBytes(old(Model()))
    {
      hide S.MessageBytes, ValidReader;
      data := outgoing;
      outgoing := [];
      queued := S.Empty;
    }

    method PollEvent() returns (e: Option<S.Event>)
      requires Valid()
      modifies this`event
      ensures Valid() && (Model(), e) == S.PollEvent(old(Model()))
    {
      hide S.MessageBytes, ValidReader;
      e := event;
      event := None;
    }
  }
}
