/** What the owner of a receiver does with a data frame and the end of its file: every byte is written to the open file,
    the acknowledgements go out, and the file is closed. */
module ReceiverDeliveries {
  import opened Bytes
  import opened Options
  import opened Headers
  import opened Subpackets
  import opened SessionSpec
  import opened FrameEnds
  import opened ReceiverDriver
  import R = ReceiverSpec
  import S = SenderSpec
  import ReceiverReplies

  /** The receiver is in a frame and owes nobody anything. */
  ghost predicate Ready(r: R.Receiver) { InFrame(r) && r.events == [] && r.answer.None? }

  /** The acknowledgement of the position reached, if the subpacket asks for it. */
  function Ack(kind: byte, count: int): seq<byte>
    requires 0 <= count <= MAX_COUNT
  {
    if kind == 0x6a || kind == 0x6b then Encode(WithCount(ZHEX, 3, count)) else []
  }

  lemma ReadyHasNoNews(r: R.Receiver)
    requires Attentive(r) && r.events == [] && (r.sub.phase.Checking? ==> AtStart(r.sub))
    ensures NoNews(r)
  {}

  /** The receiver stops behind the subpacket. */
  lemma StopsBehind(r: R.Receiver, data: seq<byte>, kind: byte, rest: seq<byte>)
    requires InFrame(r) && 1 <= |data| <= MAX_SUBPACKET && 0x68 <= kind <= 0x6b
    ensures R.FeedIncoming(r, Subpacket(r.sub.encoding, data, kind) + rest) ==
      R.FeedResult(R.Accept(Passed(r, data, kind)), |Subpacket(r.sub.encoding, data, kind)|, None)
  {
    hide ReadSub, Subpacket, Checksum;
    FramingRoundTrip(r.sub, data, kind, rest);
  }

  /** One turn of the consuming loop that takes something in. */
  lemma ConsumesOnce(o: Owner, t: R.Receiver, n: nat)
    requires NoNews(o.r) && R.Valid(o.r) && 0 < n <= |o.input|
    requires R.FeedIncoming(o.r, o.input) == R.FeedResult(t, n, None)
    requires Drainable(t) && R.SessionComplete !in t.events
    ensures R.Valid(t)
    ensures var next := Flushed(o.(r := t, input := o.input[n..])); NoNews(next.r) && Consumed(o) == Consumed(next)
  {
    hide R.FeedIncoming, R.Valid, NoNews, Empty, Flushed, Noted, Drainable;
    FeedGivesOneThing(o.r, o.input);
    FreshIsOneThing(t);
    assert R.Valid(t) by {
      FedIsValid(o.r, o.input);
    }
    var fed := o.(r := t, input := o.input[n..]);
    FlushedIsEmpty(fed);
    EmptyHasNoNews(Flushed(fed).r);
    NewsOrAnswer(o.r, R.FeedIncoming(o.r, o.input));
    assert o.input != [];
  }

  lemma FedIsValid(r: R.Receiver, input: seq<byte>)
    requires R.Valid(r)
    ensures R.Valid(R.FeedIncoming(r, input).receiver)
  {}

  lemma PieceIsTaken(r: R.Receiver, data: seq<byte>, kind: byte)
    requires Ready(r) && 1 <= |data| <= MAX_SUBPACKET && 0x68 <= kind <= 0x6b && r.count + |data| <= MAX_COUNT
    ensures var t := R.Accept(Passed(r, data, kind)); var (u, out) := R.DrainFile(t.(events := []));
      && R.Valid(t) && Drainable(t) && t.events == [] && t.(events := []) == t
      && out == data && u.count == r.count + |data| && u.events == [] && Attentive(u)
      && u.fileName == r.fileName && u.fileSize == r.fileSize
      && R.OutgoingBytes(u) == Ack(kind, u.count)
      && (kind == 0x69 || kind == 0x6a ==> Ready(u.(answer := None)) && u.sub.encoding == r.sub.encoding)
      && (kind == 0x68 || kind == 0x6b ==> u.state.WaitingSubpacket? && NoNews(u.(answer := None)))
  {
    hide Checksum, ValidReader, CountOf, Encode;
    PassedIsValid(r, data, kind);
    FinishTook(r, data, kind);
  }

  /** A subpacket is written to the open file, and acknowledged if it asks for it. */
  lemma PieceIsWritten(o: Owner, data: seq<byte>, kind: byte, rest: seq<byte>) returns (p: Owner)
    requires Ready(o.r) && 1 <= |data| <= MAX_SUBPACKET && 0x68 <= kind <= 0x6b && o.r.count + |data| <= MAX_COUNT
    requires o.input == Subpacket(o.r.sub.encoding, data, kind) + rest
    ensures NoNews(o.r) && NoNews(p.r) && Consumed(o) == Consumed(p)
    ensures p.input == rest && p.box == Write(o.box, data) && p.line == o.line + Ack(kind, o.r.count + |data|)
    ensures p.r.count == o.r.count + |data|
    ensures kind == 0x69 || kind == 0x6a ==> Ready(p.r) && p.r.sub.encoding == o.r.sub.encoding
    ensures kind == 0x68 || kind == 0x6b ==>
      p.r.state.WaitingSubpacket? && Attentive(p.r) && p.r.events == [] && p.r.answer.None?
  {
    hide Subpacket, Encode, R.FeedIncoming, R.DrainFile, Consumed, Passed, NoNews, AtStart, Write, Ack, R.OutgoingBytes;
    assert NoNews(o.r) by {
      ReadyHasNoNews(o.r);
    }
    var t, n := R.Accept(Passed(o.r, data, kind)), |Subpacket(o.r.sub.encoding, data, kind)|;
    StopsBehind(o.r, data, kind, rest);
    PieceIsTaken(o.r, data, kind);
    S.SubpacketNotEmpty(o.r.sub.encoding, data, kind);
    ConsumesOnce(o, t, n);
    assert o.input[n..] == rest;
    p := Flushed(o.(r := t, input := rest));
    NoteNothing(o.box, t.fileName, t.fileSize);
  }

  // ----- whole frames -----

  function FrameBytes(encoding: byte, pieces: seq<Piece>): seq<byte>
    decreases |pieces|
  {
    if pieces == [] then []
    else Subpacket(encoding, pieces[0].data, pieces[0].kind) + FrameBytes(encoding, pieces[1..])
  }

  /** The acknowledgements of a frame that begins at `count`. */
  function Acks(count: int, pieces: seq<Piece>): seq<byte>
    requires 0 <= count && count + |AllData(pieces)| <= MAX_COUNT
    decreases |pieces|
  {
    if pieces == [] then []
    else
      var next := count + |pieces[0].data|;
      Ack(pieces[0].kind, next) + Acks(next, pieces[1..])
  }

  /** A frame none of whose subpackets is empty. */
  predicate FullFrame(pieces: seq<Piece>) { WholeFrame(pieces) && forall p :: p in pieces ==> p.data != [] }

  lemma WriteTwice(box: Inbox, a: seq<byte>, b: seq<byte>)
    ensures Write(Write(box, a), b) == Write(box, a + b)
  {
    if a == [] {
      assert a + b == b;
    } else if b == [] {
      assert a + b == a;
    } else if box.open.Some? {
      assert box.open.value.content + a + b == box.open.value.content + (a + b);
    }
  }

  /** A frame in one piece: its data is written in order, and its acknowledgements go out in order. */
  lemma {:induction false} FrameIsWritten(o: Owner, pieces: seq<Piece>, rest: seq<byte>) returns (p: Owner)
    requires Ready(o.r) && FullFrame(pieces) && 0 <= o.r.count && o.r.count + |AllData(pieces)| <= MAX_COUNT
    requires o.input == FrameBytes(o.r.sub.encoding, pieces) + rest
    ensures NoNews(o.r) && NoNews(p.r) && Consumed(o) == Consumed(p)
    ensures p.input == rest && p.box == Write(o.box, AllData(pieces)) && p.line == o.line + Acks(o.r.count, pieces)
    ensures p.r.count == o.r.count + |AllData(pieces)|
    ensures p.r.state.WaitingSubpacket? && Attentive(p.r) && p.r.events == [] && p.r.answer.None?
    decreases |pieces|
  {
    hide Subpacket, Consumed, NoNews, Ready, Attentive, Write, Ack, FullFrame, FrameBytes, AllData, Acks;
    FirstPiece(pieces);
    var first, others := pieces[0], pieces[1..];
    SplitFrame(o.r.sub.encoding, pieces, rest);
    SplitAcks(o.r.count, pieces);
    var tail := FrameBytes(o.r.sub.encoding, others) + rest;
    p := PieceIsWritten(o, first.data, first.kind, tail);
    WriteTwice(o.box, first.data, AllData(others));
    var ack := Ack(first.kind, o.r.count + |first.data|);
    if others == [] {
      NoPieces(o.r.sub.encoding, p.r.count);
      assert first.data + [] == first.data && ack + [] == ack && [] + rest == rest;
    } else {
      p := FrameIsWritten(p, others, rest);
      var acks := Acks(o.r.count + |first.data|, others);
      assert o.line + ack + acks == o.line + (ack + acks);
    }
  }

  lemma SplitFrame(encoding: byte, pieces: seq<Piece>, rest: seq<byte>)
    requires pieces != []
    ensures FrameBytes(encoding, pieces) + rest ==
      Subpacket(encoding, pieces[0].data, pieces[0].kind) + (FrameBytes(encoding, pieces[1..]) + rest)
    ensures AllData(pieces) == pieces[0].data + AllData(pieces[1..])
  {
    hide Subpacket;
  }

  lemma SplitAcks(count: int, pieces: seq<Piece>)
    requires pieces != [] && 0 <= count && count + |AllData(pieces)| <= MAX_COUNT
    ensures count + |pieces[0].data| + |AllData(pieces[1..])| <= MAX_COUNT
    ensures Acks(count, pieces) ==
      Ack(pieces[0].kind, count + |pieces[0].data|) + Acks(count + |pieces[0].data|, pieces[1..])
  {
    hide Ack;
  }

  lemma NoPieces(encoding: byte, count: int)
    requires 0 <= count <= MAX_COUNT
    ensures FrameBytes(encoding, []) == [] && AllData([]) == [] && Acks(count, []) == []
  {}

  lemma FirstPiece(pieces: seq<Piece>)
    requires FullFrame(pieces)
    ensures pieces != [] && 1 <= |pieces[0].data| <= MAX_SUBPACKET && 0x68 <= pieces[0].kind <= 0x6b
    ensures if |pieces| == 1 then pieces[0].kind == 0x68 || pieces[0].kind == 0x6b
            else (pieces[0].kind == 0x69 || pieces[0].kind == 0x6a) && FullFrame(pieces[1..])
  {
    assert pieces[0] in pieces;
  }

  // ----- the end of the file -----

  /** Behind the frame comes the end of the file: the open file is finished, and the receiver introduces itself again,
      ready for the next one. */
  lemma FileIsKept(o: Owner, pieces: seq<Piece>)
    requires Ready(o.r) && FullFrame(pieces) && 0 <= o.r.count && o.r.count + |AllData(pieces)| <= MAX_COUNT
    requires o.input == FrameBytes(o.r.sub.encoding, pieces) +
      Encode(WithCount(ZBIN32, 11, o.r.count + |AllData(pieces)|))
    requires o.box.open.Some?
    ensures NoNews(o.r)
    ensures var (p, end) := Consumed(o);
      && end.Waiting? && p.input == [] && Empty(p.r) && p.r.state.FileBegin?
      && p.box.open.None?
      && p.box.files == o.box.files + [o.box.open.value.(content := o.box.open.value.content + AllData(pieces))]
      && p.line == o.line + Acks(o.r.count, pieces) + Encode(R.Zrinit())
  {
    hide Encode, Consumed, NoNews, Ready, Attentive, FrameBytes, AllData, Acks, FullFrame, Write, Empty;
    var count := o.r.count + |AllData(pieces)|;
    var h := WithCount(ZBIN32, 11, count);
    var p := FrameIsWritten(o, pieces, Encode(h));
    EndIsTaken(p, h);
    WriteOpen(o.box, AllData(pieces));
  }

  lemma WriteOpen(box: Inbox, data: seq<byte>)
    requires box.open.Some?
    ensures Write(box, data) == box.(open := Some(box.open.value.(content := box.open.value.content + data)))
  {
    if data == [] {
      assert box.open.value.content + data == box.open.value.content;
    }
  }

  lemma EndIsTaken(o: Owner, h: Header)
    requires NoNews(o.r) && Attentive(o.r) && o.r.state.WaitingSubpacket? && o.r.answer.None?
    requires h.encoding == ZBIN32 && h.frame == 11 && h.Count() == o.r.count && o.input == Encode(h)
    ensures var (p, end) := Consumed(o);
      && end.Waiting? && p.input == [] && Empty(p.r) && p.r.state.FileBegin?
      && p.box == Note(o.box, R.FileComplete, o.r.fileName, o.r.fileSize)
      && p.line == o.line + Encode(R.Zrinit())
  {
    hide Encode, Consumed, CountOf, R.FeedIncoming, ValidReader, ValidSub;
    ReceiverReplies.FedHeader(o.r, h);
    var t := R.HandleHeader(o.r, h);
    S.EncodeLength(h);
    ConsumesOnce(o, t, |Encode(h)|);
    var next := Flushed(o.(r := t, input := []));
    assert o.input[|Encode(h)|..] == [];
    assert t.events == [R.FileComplete];
    NoteOne(o.box, R.FileComplete, o.r.fileName, o.r.fileSize);
    FlushedTwice(o.(r := t, input := []));
    ConsumedNothing(next);
  }

  lemma FlushedTwice(o: Owner)
    requires R.Valid(o.r) && OneThing(o.r) && Drainable(o.r)
    ensures var next := Flushed(o); Empty(next.r) && R.Valid(next.r) && Flushed(next) == next
  {
    hide Flushed, R.Valid;
    FlushedIsEmpty(o);
    EmptyIsOneThing(Flushed(o).r);
    EmptyIsDrainable(Flushed(o).r);
    FlushedIsEmpty(Flushed(o));
  }
}
