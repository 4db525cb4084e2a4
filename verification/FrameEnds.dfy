/** What the four end types of a data subpacket do to its frame: 0x68 and 0x6b close it, 0x69 and 0x6a leave it open,
    0x6a and 0x6b are acknowledged. */
module FrameEnds {
  import opened Bytes
  import opened Options
  import opened Headers
  import opened Subpackets
  import opened SessionSpec
  import opened ReceiverSpec

  /** The receiver is in a data frame, in front of a subpacket. */
  ghost predicate InFrame(r: Receiver) { Attentive(r) && r.state.ReadingSubpacket? && AtStart(r.sub) }

  /** A subpacket arrives and is drained. */
  function Taken(r: Receiver, data: seq<byte>, kind: byte): (res: (Receiver, seq<byte>))
    requires Valid(r)
    ensures Valid(res.0)
  {
    DrainFile(FeedIncoming(r, Subpacket(r.sub.encoding, data, kind)).receiver)
  }

  /** What is queued for the peer has gone out, and `h` comes back. */
  function Answered(r: Receiver, h: Header): FeedResult
    requires Valid(r)
  {
    FeedIncoming(DrainOutgoing(r).0, Encode(h))
  }

  /** What the subpacket leaves behind. */
  ghost predicate Took(r: Receiver, data: seq<byte>, kind: byte, t: Receiver) {
    && Attentive(t) && t.events == r.events && t.count == r.count + |data| <= MAX_COUNT
    && (kind == 0x68 || kind == 0x6b ==> t.state.WaitingSubpacket?)
    && (kind == 0x69 || kind == 0x6a ==> InFrame(t) && t.sub.encoding == r.sub.encoding)
    && (kind == 0x68 || kind == 0x69 ==> t.answer == r.answer)
    && (kind == 0x6a || kind == 0x6b ==> t.answer == Some(WithCount(ZHEX, ZACK, t.count)))
  }

  lemma PassedIsValid(r: Receiver, data: seq<byte>, kind: byte)
    requires InFrame(r) && |data| <= MAX_SUBPACKET && 0x68 <= kind <= 0x6b
    ensures Valid(Accept(Passed(r, data, kind)))
  {
    ChecksumAccepted(r.sub.encoding, data + [kind]);
  }

  lemma FinishTook(r: Receiver, data: seq<byte>, kind: byte)
    requires InFrame(r) && |data| <= MAX_SUBPACKET && 0x68 <= kind <= 0x6b && r.count + |data| <= MAX_COUNT
    ensures var (t, err) := FinishSubpacket(Accept(Passed(r, data, kind)));
      err.None? && Took(r, data, kind, t)
  {
    hide Checksum, ValidReader, CountOf;
  }

  lemma TakesSubpacket(r: Receiver, data: seq<byte>, kind: byte)
    requires InFrame(r) && |data| <= MAX_SUBPACKET && 0x68 <= kind <= 0x6b && r.count + |data| <= MAX_COUNT
    ensures var (t, out) := Taken(r, data, kind);
      out == data && Took(r, data, kind, t)
  {
    hide Subpacket, Checksum, FeedLoop, FinishSubpacket, Took;
    FinishTook(r, data, kind);
    if data == [] {
      TakesEmpty(r, kind);
      PassedIsValid(r, [], kind);
      TookIsIdle(r, data, kind, FinishSubpacket(Accept(Passed(r, [], kind))).0);
    } else {
      ReceiverTakesData(r, data, kind);
    }
  }

  lemma TookIsIdle(r: Receiver, data: seq<byte>, kind: byte, t: Receiver)
    requires Took(r, data, kind, t)
    ensures Attentive(t) && !t.HasFileData()
  {}

  lemma FeedNothing(r: Receiver)
    requires Attentive(r)
    ensures FeedLoop(r, []).receiver == r
  {
    hide ValidReader, Verify, Checksum;
    assert r.(reader := r.reader) == r && r.(sub := r.sub) == r;
  }

  /** An empty subpacket is finished as soon as it has passed its checksum. */
  lemma TakesEmpty(r: Receiver, kind: byte)
    requires InFrame(r) && 0x68 <= kind <= 0x6b
    ensures FeedIncoming(r, Subpacket(r.sub.encoding, [], kind)).receiver ==
      FinishSubpacket(Accept(Passed(r, [], kind))).0
  {
    hide Subpacket, Checksum, ReadSub, FinishSubpacket, Took, FeedLoop, Process;
    var input := Subpacket(r.sub.encoding, [], kind);
    FinishTook(r, [], kind);
    PassedIsValid(r, [], kind);
    var t := FinishSubpacket(Accept(Passed(r, [], kind))).0;
    TookIsIdle(r, [], kind, t);
    ProcessEmpty(r, kind);
    FeedRound(r, input);
    assert input[|input|..] == [];
    FeedNothing(t);
  }

  lemma FeedRound(r: Receiver, input: seq<byte>)
    requires Valid(r) && !Busy(r)
    ensures var (f, goesOn) := Round(r, input);
      FeedLoop(r, input) ==
        if goesOn then ReceiverSpec.Later(FeedLoop(f.receiver, input[f.consumed..]), f.consumed) else f
  {
    hide Round, Valid;
  }

  lemma ProcessEmpty(r: Receiver, kind: byte)
    requires InFrame(r) && 0x68 <= kind <= 0x6b
    ensures var (t, err) := FinishSubpacket(Accept(Passed(r, [], kind)));
      Process(r, Subpacket(r.sub.encoding, [], kind)) ==
        SubResult(t, |Subpacket(r.sub.encoding, [], kind)|, err.None?, err)
  {
    hide Subpacket, Checksum, ReadSub, FinishSubpacket;
    FramingRoundTrip(r.sub, [], kind, []);
    assert Subpacket(r.sub.encoding, [], kind) + [] == Subpacket(r.sub.encoding, [], kind);
  }

  // ----- what may come next -----

  /** A subpacket of type 0x68 or 0x6b is the last of its frame: an end-of-file header with the position reached
      completes the file. */
  lemma ClosedFrameEnds(r: Receiver, data: seq<byte>, kind: byte)
    requires InFrame(r) && |data| <= MAX_SUBPACKET && r.count + |data| <= MAX_COUNT
    requires kind == 0x68 || kind == 0x6b
    ensures var (t, out) := Taken(r, data, kind);
      && out == data && t.count == r.count + |data|
      && var f := Answered(t, WithCount(ZBIN32, ZEOF, t.count));
         f.err.None? && f.receiver.events == r.events + [FileComplete] && f.receiver.state.FileBegin?
  {
    hide Taken, Answered, Attentive;
    FrameIsValid(r);
    TakesSubpacket(r, data, kind);
    EofCompletes(Taken(r, data, kind).0);
  }

  lemma EofCompletes(t: Receiver)
    requires Attentive(t) && t.state.WaitingSubpacket?
    ensures var f := Answered(t, WithCount(ZBIN32, ZEOF, t.count));
      f.err.None? && f.receiver.events == t.events + [FileComplete] && f.receiver.state.FileBegin?
  {
    hide Encode, CountOf, FeedIncoming, ValidReader, ValidSub;
    ReceiverAnswers(DrainOutgoing(t).0, WithCount(ZBIN32, ZEOF, t.count));
  }

  /** After one of type 0x69 or 0x6a the next subpacket belongs to the same frame. */
  lemma OpenFrameGoesOn(r: Receiver, data: seq<byte>, kind: byte, more: seq<byte>, next: byte)
    requires InFrame(r) && |data| <= MAX_SUBPACKET && |more| <= MAX_SUBPACKET
    requires r.count + |data| + |more| <= MAX_COUNT
    requires kind == 0x69 || kind == 0x6a
    requires 0x68 <= next <= 0x6b
    ensures var (t, out) := Taken(r, data, kind);
      && out == data && t.count == r.count + |data|
      && var (u, rest) := Taken(t, more, next);
         rest == more && u.count == t.count + |more| && u.events == r.events && u.pendingErr.None?
  {
    hide Taken;
    FrameIsValid(r);
    TakesSubpacket(r, data, kind);
    TakesSubpacket(Taken(r, data, kind).0, more, next);
  }

  /** Exactly the types 0x6a and 0x6b queue an acknowledgement of the position reached. */
  lemma AcknowledgedIff(r: Receiver, data: seq<byte>, kind: byte)
    requires InFrame(r) && |data| <= MAX_SUBPACKET && r.count + |data| <= MAX_COUNT
    requires 0x68 <= kind <= 0x6b && r.answer.None?
    ensures OutgoingBytes(Taken(r, data, kind).0) ==
      if kind == 0x6a || kind == 0x6b then Encode(WithCount(ZHEX, 3, r.count + |data|)) else []
  {
    hide Taken, Encode, CountOf;
    TakesSubpacket(r, data, kind);
  }

  // ----- whole frames -----

  datatype Piece = Piece(data: seq<byte>, kind: byte)

  function AllData(pieces: seq<Piece>): seq<byte>
    decreases |pieces|
  {
    if pieces == [] then [] else pieces[0].data + AllData(pieces[1..])
  }

  /** Subpackets that arrive and are drained one after another, and what they hand out. */
  function TakenAll(r: Receiver, pieces: seq<Piece>): (res: (Receiver, seq<byte>))
    requires Valid(r)
    ensures Valid(res.0)
    decreases |pieces|
  {
    hide Taken, Valid;
    if pieces == [] then (r, [])
    else
      var (t, out) := Taken(r, pieces[0].data, pieces[0].kind);
      var (u, rest) := TakenAll(t, pieces[1..]);
      (u, out + rest)
  }

  /** A frame in which every subpacket but the last one lets it go on. */
  predicate WholeFrame(pieces: seq<Piece>) {
    && pieces != []
    && (forall i :: 0 <= i < |pieces| ==> |pieces[i].data| <= MAX_SUBPACKET)
    && (forall i :: 0 <= i < |pieces| - 1 ==> pieces[i].kind == 0x69 || pieces[i].kind == 0x6a)
    && (pieces[|pieces| - 1].kind == 0x68 || pieces[|pieces| - 1].kind == 0x6b)
  }

  lemma {:induction false} FrameTook(r: Receiver, pieces: seq<Piece>)
    requires InFrame(r) && WholeFrame(pieces) && r.count + |AllData(pieces)| <= MAX_COUNT
    ensures var (t, out) := TakenAll(r, pieces);
      && out == AllData(pieces) && t.count == r.count + |out| && t.events == r.events
      && Attentive(t) && t.state.WaitingSubpacket?
    decreases |pieces|
  {
    hide Taken, Attentive, AtStart;
    var p := pieces[0];
    FrameIsValid(r);
    TakesSubpacket(r, p.data, p.kind);
    if |pieces| > 1 {
      FrameTook(Taken(r, p.data, p.kind).0, pieces[1..]);
    } else {
      assert pieces[1..] == [];
    }
  }

  lemma FrameIsValid(r: Receiver)
    requires InFrame(r)
    ensures Valid(r)
  {}

  /** Whatever a peer cuts a frame into and whichever end types it chooses: the data comes out in order, and an
      end-of-file header with the position reached completes the file. */
  lemma FrameThenEof(r: Receiver, pieces: seq<Piece>)
    requires InFrame(r) && WholeFrame(pieces) && r.count + |AllData(pieces)| <= MAX_COUNT
    ensures var (t, out) := TakenAll(r, pieces);
      && out == AllData(pieces) && t.count == r.count + |out|
      && var f := Answered(t, WithCount(ZBIN32, ZEOF, t.count));
         f.err.None? && f.receiver.events == r.events + [FileComplete] && f.receiver.state.FileBegin?
  {
    hide TakenAll, Answered, AllData;
    FrameTook(r, pieces);
    EofCompletes(TakenAll(r, pieces).0);
  }
}
