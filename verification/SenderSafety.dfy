/** What a sender puts on the line is well formed in every run, whatever its owner calls and whatever
    the peer answers: frames start where the receiver asked, their chunks are contiguous, and no frame
    carries more than the receiver can be asked to hold before it acknowledges. */
module SenderSafety {
  import opened Bytes
  import opened Options
  import opened Sequences
  import opened Headers
  import opened Subpackets
  import opened Escape
  import opened SenderSpec

  // ----- the rules, on the record alone -----

  /** An unfinished data frame: where it started, and what it has carried so far. */
  datatype Frame = Frame(start: int, bytes: nat, chunks: nat)

  /** The frame a chunk belongs to. */
  function FrameOf(before: seq<Entry>, at: Option<int>): Frame {
    if at.Some? then Frame(at.value, 0, 0)
    else if OpenFrame(before).Some? then OpenFrame(before).value
    else Frame(0, 0, 0)
  }

  function OpenFrame(h: seq<Entry>): Option<Frame>
    decreases |h|, 0
  {
    if h == [] then None
    else
      match Last(h)
      case Sent(Chunk(at, data, kind)) =>
        var before := OpenFrame(Front(h));
        var f := if at.Some? then Frame(at.value, 0, 0) else if before.Some? then before.value else Frame(0, 0, 0);
        if kind == ZCRCG then Some(Frame(f.start, f.bytes + |data|, f.chunks + 1)) else None
      case _ => OpenFrame(Front(h))
  }

  /** The position the receiver asked for last. */
  function Wanted(h: seq<Entry>): Option<int> {
    if h == [] then None else if Last(h).Asked? then Some(Last(h).offset) else Wanted(Front(h))
  }

  /** The size of the file announced last. */
  function Announced(h: seq<Entry>): Option<nat> {
    if h == [] then None
    else if Last(h).Sent? && Last(h).message.File? then Some(Last(h).message.size)
    else Announced(Front(h))
  }

  predicate ChunkMayFollow(before: seq<Entry>, at: Option<int>, data: seq<byte>, kind: byte) {
    var f := FrameOf(before, at);
    var end := f.start + f.bytes + |data|;
    && (at.Some? <==> OpenFrame(before).None?)
    && (at.Some? ==> Wanted(before) == at)
    && 1 <= |data| <= MAX_SUBPACKET
    && f.chunks < MAX_PER_ACK
    && Announced(before).Some? && end <= Announced(before).value
    && (kind == ZCRCW || (kind == ZCRCG && |data| == MAX_SUBPACKET))
    && (f.chunks + 1 == MAX_PER_ACK || end == Announced(before).value ==> kind == ZCRCW)
  }

  /** The rule for the next entry of a legal record. */
  predicate MayFollow(before: seq<Entry>, e: Entry) {
    match e
    case Sent(Chunk(at, data, kind)) => ChunkMayFollow(before, at, data, kind)
    case Sent(Eof(offset)) =>
      && OpenFrame(before).None? && Wanted(before) == Some(offset)
      && Announced(before).Some? && Announced(before).value <= offset
    case _ => OpenFrame(before).None?
  }

  predicate Legal(h: seq<Entry>) {
    h != [] ==> Legal(Front(h)) && MayFollow(Front(h), Last(h))
  }

  lemma Snoc(h: seq<Entry>, e: Entry)
    ensures var g := h + [e];
      && (Legal(g) <==> Legal(h) && MayFollow(h, e))
      && Wanted(g) == (if e.Asked? then Some(e.offset) else Wanted(h))
      && Announced(g) == (if e.Sent? && e.message.File? then Some(e.message.size) else Announced(h))
      && (!(e.Sent? && e.message.Chunk?) ==> OpenFrame(g) == OpenFrame(h))
  {
    assert Last(h + [e]) == e && Front(h + [e]) == h;
  }

  lemma SnocChunk(h: seq<Entry>, at: Option<int>, data: seq<byte>, kind: byte)
    ensures var g := h + [Sent(Chunk(at, data, kind))];
      var f := FrameOf(h, at);
      OpenFrame(g) == if kind == ZCRCG then Some(Frame(f.start, f.bytes + |data|, f.chunks + 1)) else None
  {
    var e := Sent(Chunk(at, data, kind));
    assert Last(h + [e]) == e && Front(h + [e]) == h;
  }

  /** In a legal record an unacknowledged frame holds at most 200 chunks of 8192 bytes, and stays
      strictly inside the announced file. */
  lemma {:induction false} UnacknowledgedIsBounded(h: seq<Entry>)
    requires Legal(h) && OpenFrame(h).Some?
    ensures var f := OpenFrame(h).value;
      && 1 <= f.chunks < MAX_PER_ACK
      && f.bytes == f.chunks * MAX_SUBPACKET
      && f.bytes + MAX_SUBPACKET <= MAX_PER_ACK * MAX_SUBPACKET
      && Announced(h).Some? && f.start + f.bytes < Announced(h).value
    decreases |h|
  {
    match Last(h)
    case Sent(Chunk(at, data, kind)) =>
      if at.None? {
        UnacknowledgedIsBounded(Front(h));
      }
    case _ => assert false;
  }

  // ----- runs -----

  datatype Op =
    | Start(name: seq<byte>, size: int) | Finish | FeedData(data: seq<byte>)
    | FeedAnswer(input: seq<byte>) | Drain | Poll

  function Do(s: Sender, op: Op): (t: Sender)
    requires Valid(s)
    ensures Valid(t)
  {
    match op
    case Start(name, size) => StartFile(s, name, size).0
    case Finish => FinishSession(s).0
    case FeedData(data) => FeedFile(s, data).0
    case FeedAnswer(input) => FeedIncoming(s, input).sender
    case Drain => Drained(s)
    case Poll => PollEvent(s).0
  }

  function DoAll(s: Sender, ops: seq<Op>): (t: Sender)
    requires Valid(s)
    ensures Valid(t)
    decreases |ops|
  {
    if ops == [] then s else DoAll(Do(s, ops[0]), ops[1..])
  }

  // ----- the invariant -----

  predicate Transferring(state: State) {
    state.WaitFilePos? || state.NeedFileData? || state.WaitFileAck?
  }

  /** How the fields of a sender reflect its record. */
  ghost predicate Reflects(s: Sender) {
    && Legal(s.history)
    && (Transferring(s.state) ==> Announced(s.history) == Some(s.fileSize))
    && (s.request.None? || s.frameNeedsHeader ==> OpenFrame(s.history).None?)
    && (s.request.Some? && s.frameNeedsHeader ==> Wanted(s.history) == Some(s.request.value.offset))
    && (s.request.Some? && !s.frameNeedsHeader ==>
      && OpenFrame(s.history).Some?
      && var f := OpenFrame(s.history).value;
         && f.start + f.bytes == s.request.value.offset
         && f.chunks + s.frameRemaining <= MAX_PER_ACK)
  }

  ghost predicate Inv(s: Sender) { Valid(s) && Reflects(s) }

  /** A step outside a frame that queues at most one message other than a chunk. */
  lemma OutsideFrame(s: Sender, t: Sender)
    requires Inv(s) && s.request.None? && Valid(t) && t.request.None?
    requires t.history == s.history || (t.history != [] && t.history == s.history + [Last(t.history)])
    requires t.history != s.history ==>
      var e := Last(t.history); !(e.Sent? && e.message.Chunk?) && MayFollow(s.history, e)
    requires Transferring(t.state) ==>
      if t.history == s.history then Transferring(s.state) && t.fileSize == s.fileSize
      else var e := Last(t.history); e.Sent? && e.message.File? && e.message.size == t.fileSize
    ensures Inv(t)
  {
    hide Legal, OpenFrame, Announced, Wanted, Valid, MayFollow;
    if t.history != s.history {
      Snoc(s.history, Last(t.history));
    }
  }

  lemma StartFileKeeps(s: Sender, name: seq<byte>, size: int)
    requires Inv(s)
    ensures Inv(StartFile(s, name, size).0)
  {
    hide Legal, OpenFrame, Announced, Wanted, ValidReader, Announce;
    if s.state.ReadyForFile? && 0 <= size <= MAX_COUNT {
      AnnounceKeeps(s.(fileName := name, fileSize := size, hasFile := true, request := None,
                       frameRemaining := 0, frameNeedsHeader := false));
    }
  }

  lemma FinishSessionKeeps(s: Sender)
    requires Inv(s)
    ensures Inv(FinishSession(s).0)
  {
    hide Legal, OpenFrame, Announced, Wanted, ValidReader;
    if s.state.ReadyForFile? {
      OutsideFrame(s, FinishSession(s).0);
    }
  }

  lemma SendChunkKeeps(s: Sender, data: seq<byte>)
    requires Inv(s) && s.request.Some? && 1 <= |data| <= s.request.value.len
    ensures Inv(SendChunk(s, data))
  {
    hide Legal, OpenFrame, Announced, Wanted, ValidReader;
    var last := ClosesFrame(s, |data|);
    var at := if s.frameNeedsHeader then Some(s.request.value.offset) else None;
    var kind := if last then ZCRCW else ZCRCG;
    Snoc(s.history, Sent(Chunk(at, data, kind)));
    SnocChunk(s.history, at, data, kind);
  }

  lemma OnZrposKeeps(s: Sender, offset: int)
    requires Inv(s) && s.request.None? && 0 <= offset <= MAX_COUNT
    ensures Inv(OnZrpos(s, offset))
  {
    hide Legal, OpenFrame, Announced, Wanted, ValidReader;
    Snoc(s.history, Asked(offset));
    Snoc(s.history + [Asked(offset)], Sent(Eof(offset)));
    Snoc(s.history, Sent(Zrqinit()));
  }

  lemma AnnounceKeeps(s: Sender)
    requires Valid(s) && s.request.None? && Legal(s.history) && OpenFrame(s.history).None?
    requires !Transferring(s.state)
    ensures Inv(Announce(s).0)
  {
    hide Legal, OpenFrame, Announced, Wanted, ValidReader, FitsOutgoing;
    Snoc(s.history, Sent(File(s.fileName, s.fileSize)));
  }

  lemma IdleOrFinishKeeps(s: Sender)
    requires Inv(s) && s.request.None?
    ensures Inv(IdleOrFinish(s))
  {
    hide Legal, OpenFrame, Announced, Wanted, ValidReader;
    OutsideFrame(s, IdleOrFinish(s));
  }

  lemma SayGoodbyeKeeps(s: Sender)
    requires Inv(s) && s.request.None?
    ensures Inv(SayGoodbye(s))
  {
    hide Legal, OpenFrame, Announced, Wanted, ValidReader;
    OutsideFrame(s, SayGoodbye(s));
  }

  lemma OnZrinitKeeps(s: Sender, h: Header)
    requires Inv(s) && s.request.None?
    ensures Inv(OnZrinit(s, h).0)
  {
    hide Legal, OpenFrame, Announced, Wanted, ValidReader, Announce, IdleOrFinish, SayGoodbye;
    var t := s.(maxPerAck := if CanOverlap(h) then MAX_PER_ACK else 1);
    match s.state
    case WaitReceiverInit =>
      AnnounceKeeps(t);
      IdleOrFinishKeeps(t);
    case WaitFileDone => IdleOrFinishKeeps(t.(event := Some(FileComplete), hasFile := false));
    case WaitFinish => SayGoodbyeKeeps(t);
    case _ =>
  }

  lemma HandleHeaderKeeps(s: Sender, h: Header)
    requires Inv(s) && s.request.None?
    ensures Inv(HandleHeader(s, h).0)
  {
    hide Legal, OpenFrame, Announced, Wanted, ValidReader, OnZrpos, OnZrinit, CountOf;
    if h.frame == ZRPOS || h.frame == ZACK {
      OnZrposKeeps(s, h.Count());
    } else if h.frame == ZRINIT {
      OnZrinitKeeps(s, h);
    } else {
      OutsideFrame(s, HandleHeader(s, h).0);
    }
  }

  lemma SeenKeeps(s: Sender, input: seq<byte>)
    requires Inv(s)
    ensures Inv(s.(reader := Read(s.reader, input).reader))
  {
    hide Legal, OpenFrame, Announced, Wanted;
  }

  lemma RoundKeeps(s: Sender, input: seq<byte>)
    requires Inv(s) && s.request.None?
    ensures Inv(Round(s, input).0.sender)
  {
    hide Inv, HandleHeader, Read, Decoded, ValidReader;
    InvIsValid(s);
    SeenKeeps(s, input);
    match Decoded(Read(s.reader, input).raw) {
      case Found(h) => HandleHeaderKeeps(s.(reader := Read(s.reader, input).reader), h);
      case _ =>
    }
  }

  lemma InvIsValid(s: Sender)
    requires Inv(s)
    ensures Valid(s) && ValidReader(s.reader)
  {}

  lemma {:induction false} FeedIncomingKeeps(s: Sender, input: seq<byte>)
    requires Inv(s)
    ensures Inv(FeedIncoming(s, input).sender)
    decreases |input|
  {
    hide Reflects, Valid, Round;
    if !Busy(s) {
      var (f, goesOn) := Round(s, input);
      RoundKeeps(s, input);
      if goesOn {
        FeedIncomingKeeps(f.sender, input[f.consumed..]);
      }
    }
  }

  lemma DoKeeps(s: Sender, op: Op)
    requires Inv(s)
    ensures Inv(Do(s, op))
  {
    hide Legal, OpenFrame, Announced, Wanted, ValidReader, StartFile, FinishSession, SendChunk, FeedIncoming;
    match op
    case Start(name, size) => StartFileKeeps(s, name, size);
    case Finish => FinishSessionKeeps(s);
    case FeedData(data) =>
      if s.request.Some? && 1 <= |data| <= s.request.value.len {
        SendChunkKeeps(s, data);
      }
    case FeedAnswer(input) => FeedIncomingKeeps(s, input);
    case _ =>
  }

  lemma {:induction false} DoAllKeeps(s: Sender, ops: seq<Op>)
    requires Inv(s)
    ensures Inv(DoAll(s, ops))
    decreases |ops|
  {
    hide Do, Reflects;
    if ops != [] {
      DoKeeps(s, ops[0]);
      DoAllKeeps(Do(s, ops[0]), ops[1..]);
    }
  }

  /** Safety of every run, from either kind of start. */
  lemma SenderIsSafe(initiator: bool, ops: seq<Op>)
    ensures Valid(NewSender(initiator))
    ensures var s := DoAll(NewSender(initiator), ops); Valid(s) && Reflects(s)
  {
    var s := NewSender(initiator);
    if initiator {
      Snoc([], Sent(Zrqinit()));
      assert [] + [Sent(Zrqinit())] == [Sent(Zrqinit())];
    }
    DoAllKeeps(s, ops);
  }
}
