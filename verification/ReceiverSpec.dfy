/** The receiving half of a ZMODEM session as a transition system over its fields. `history` is the
    record of what the receiver accepted and handed out; no decision reads it. The outgoing buffer
    only ever holds one encoded header, so it is represented by that header. Queueing a header for a
    count in range cannot fail, and `Valid` keeps the count in range, so those error paths of the
    source are absent. */
module ReceiverSpec {
  import opened Bytes
  import opened Options
  import opened Headers
  import opened Subpackets
  import opened Escape
  import FileInfo

  const MAX_EVENTS: nat := 4

  datatype State = SessionBegin | FileBegin | ReadingMetadata | ReadingSubpacket | WaitingSubpacket | SessionEnd

  datatype Event = FileStart | FileComplete | SessionComplete

  datatype Entry =
    | Started(name: seq<byte>, size: int)
    | Framed(offset: int)
    | Accepted(data: seq<byte>, kind: byte, encoding: byte, crc: seq<byte>)
    | Drained(data: seq<byte>)
    | Completed(offset: int)
    | Ended

  datatype Receiver = Receiver(
    state: State,
    count: int,
    fileName: seq<byte>,
    fileSize: int,
    sub: Sub,
    reader: Reader,
    answer: Option<Header>,
    events: seq<Event>,
    pendingErr: Option<Error>,
    history: seq<Entry>)
  {
    predicate Reading() { state.ReadingSubpacket? || state.ReadingMetadata? }

    predicate HasFileData() { sub.phase.Ready? }

    function Log(e: Entry): Receiver { this.(history := history + [e]) }

    function Push(e: Event): Receiver { this.(events := events + [e]) }

    function Reply(h: Header): Receiver { this.(answer := Some(h)) }
  }

  function Zrinit(): Header { Header(ZHEX, ZRINIT, 0, 0x20, 0, 35) }

  function NewReceiver(): Receiver {
    Receiver(SessionBegin, 0, [], 0, UNUSED, IDLE, Some(Zrinit()), [], None, [])
  }

  predicate Valid(r: Receiver) {
    && 0 <= r.count <= MAX_COUNT
    && ValidReader(r.reader)
    && ValidSub(r.sub)
    && (r.Reading() ==> !r.sub.phase.Idle?)
    && (r.sub.phase.Ready? ==> r.state.ReadingSubpacket?)
  }

  // ----- headers -----

  function OnZfile(r: Receiver, h: Header): (res: Receiver)
    ensures Valid(r) ==> Valid(res)
  {
    if r.state.SessionBegin? || r.state.FileBegin?
    then r.(state := ReadingMetadata, sub := Begin(r.sub, h.encoding))
    else r
  }

  function OnZdata(r: Receiver, h: Header): (res: Receiver)
    requires 0 <= r.count <= MAX_COUNT
    ensures Valid(r) ==> Valid(res)
  {
    if r.state.SessionBegin? then r.Reply(Zrinit())
    else if !r.state.FileBegin? && !r.state.WaitingSubpacket? then r
    else if h.Count() != r.count then r.Reply(WithCount(ZHEX, ZRPOS, r.count))
    else r.(state := ReadingSubpacket, sub := Begin(r.sub, h.encoding)).Log(Framed(h.Count()))
  }

  function OnZeof(r: Receiver, h: Header): (res: Receiver)
    ensures Valid(r) ==> Valid(res)
  {
    if r.state.WaitingSubpacket? && h.Count() == r.count
    then r.Reply(Zrinit()).(state := FileBegin).Push(FileComplete).Log(Completed(h.Count()))
    else r
  }

  function OnZfin(r: Receiver): (res: Receiver)
    ensures Valid(r) ==> Valid(res)
  {
    if r.state.WaitingSubpacket? || r.state.FileBegin?
    then r.Reply(Plain(ZHEX, ZFIN)).(state := SessionEnd).Push(SessionComplete).Log(Ended)
    else r
  }

  function HandleHeader(r: Receiver, h: Header): (res: Receiver)
    requires 0 <= r.count <= MAX_COUNT
    ensures Valid(r) ==> Valid(res)
  {
    if h.frame == ZRQINIT then (if r.state.SessionBegin? then r.Reply(Zrinit()) else r)
    else if h.frame == ZFILE then OnZfile(r, h)
    else if h.frame == ZDATA then OnZdata(r, h)
    else if h.frame == ZEOF then OnZeof(r, h)
    else if h.frame == ZFIN then OnZfin(r)
    else r
  }

  // ----- subpackets -----

  /** What follows a subpacket of each type: a ZCRCG or ZCRCQ lets the frame go on, a ZCRCQ or ZCRCW
      asks for an acknowledgement. */
  predicate Continues(kind: byte) { kind == ZCRCG || kind == ZCRCQ }

  predicate AsksAck(kind: byte) { kind == ZCRCQ || kind == ZCRCW }

  /** The buffered bytes are handed out: they count, and the subpacket type decides what follows. */
  function FinishSubpacket(r: Receiver): (res: (Receiver, Option<Error>))
    requires Valid(r) && r.sub.phase.Ready?
    ensures Valid(res.0)
  {
    var total := r.count + |r.sub.buf|;
    if total > MAX_COUNT then (r, Some(CountOutOfRange))
    else
      var next := r.(count := total).Log(Drained(r.sub.buf));
      var acked := if AsksAck(r.sub.kind) then next.Reply(WithCount(ZHEX, ZACK, total)) else next;
      (if Continues(r.sub.kind) then acked.(sub := Emptied(r.sub, Data))
       else acked.(sub := Emptied(r.sub, Idle), state := WaitingSubpacket), None)
  }

  /** Name and size of the announced file. The name is stored even when the size is malformed. */
  function ParseZfile(r: Receiver): (res: (Receiver, Option<Error>))
    ensures Valid(r) ==> Valid(res.0)
  {
    hide FileInfo.Before, ValidSub, ValidReader;
    var name := FileInfo.Before(r.sub.buf, 0);
    if name == [] then (r, Some(MalformedFileName))
    else
      match FileInfo.ParseSize(r.sub.buf)
      case Err(e) => (r.(fileName := name), Some(e))
      case Ok(size) => (r.(fileName := name, fileSize := size, count := 0), None)
  }

  /** The file is announced and its data is asked for from the beginning. */
  function BeginFile(r: Receiver): (res: Receiver)
    ensures Valid(r) ==> Valid(res)
  {
    r.(sub := Emptied(r.sub, Idle), state := FileBegin)
      .Reply(WithCount(ZHEX, ZRPOS, 0)).Push(FileStart).Log(Started(r.fileName, r.fileSize))
  }

  /** The metadata subpacket is complete. */
  function AcceptMetadata(r: Receiver): (res: (Receiver, Option<Error>))
    ensures Valid(r) ==> Valid(res.0)
  {
    hide ParseZfile, BeginFile;
    var (parsed, err) := ParseZfile(r);
    if err.Some? then (parsed, err) else (BeginFile(parsed), None)
  }

  /** A file data subpacket is complete. */
  function Accept(r: Receiver): (res: Receiver)
    ensures Valid(r) && r.state.ReadingSubpacket? ==> Valid(res)
  {
    r.(sub := r.sub.(phase := Ready)).Log(Accepted(r.sub.buf, r.sub.kind, r.sub.encoding, r.sub.crcBuf))
  }

  /** As `Accept`; an empty subpacket is finished at once. */
  function AcceptData(r: Receiver): (res: (Receiver, Option<Error>))
    requires Valid(r) && r.state.ReadingSubpacket?
    ensures Valid(res.0)
  {
    if r.sub.buf == [] then FinishSubpacket(Accept(r)) else (Accept(r), None)
  }

  datatype SubResult = SubResult(receiver: Receiver, consumed: nat, done: bool, err: Option<Error>)

  function Process(r: Receiver, input: seq<byte>): (res: SubResult)
    requires Valid(r) && r.Reading()
    ensures Valid(res.receiver) && res.consumed <= |input|
  {
    hide ReadSub, FinishSubpacket;
    var x := ReadSub(r.sub, input);
    var read := r.(sub := x.sub);
    match x.verdict
    case MoreInput => SubResult(read, x.consumed, false, None)
    case Holding => SubResult(read, x.consumed, true, None)
    case Bad(e) => SubResult(read, x.consumed, false, Some(e))
    case Intact =>
      var (next, err) := if r.state.ReadingMetadata? then AcceptMetadata(read) else AcceptData(read);
      SubResult(next, x.consumed, err.None?, err)
  }

  // ----- the public operations -----

  datatype FeedResult = FeedResult(receiver: Receiver, consumed: nat, err: Option<Error>)

  function Later(f: FeedResult, n: nat): FeedResult { f.(consumed := f.consumed + n) }

  predicate Busy(r: Receiver) { r.HasFileData() || |r.events| >= MAX_EVENTS }

  /** One round of the feeding loop, and whether the loop goes on after it. */
  function Round(r: Receiver, input: seq<byte>): (res: (FeedResult, bool))
    requires Valid(r)
    ensures Valid(res.0.receiver) && res.0.consumed <= |input|
    ensures res.1 ==> res.0.err.None? && res.0.consumed > 0
  {
    hide Process, HandleHeader, Read, Decoded, ValidSub;
    if r.Reading() then
      var p := Process(r, input);
      var t := p.receiver;
      (FeedResult(t, p.consumed, p.err),
       p.err.None? && p.done && t.answer.None? && !Busy(t) && p.consumed > 0)
    else
      var found := Read(r.reader, input);
      var seen := r.(reader := found.reader);
      match Decoded(found.raw)
      case Failed(e) => (FeedResult(seen, found.consumed, Some(e)), false)
      case Pending => (FeedResult(seen, 0, None), false)
      case Found(h) =>
        var t := HandleHeader(seen, h);
        (FeedResult(t, found.consumed, None),
         |t.events| < MAX_EVENTS && t.answer.None? && 0 < found.consumed < |input|)
  }

  function FeedLoop(r: Receiver, input: seq<byte>): (res: FeedResult)
    requires Valid(r)
    ensures Valid(res.receiver) && res.consumed <= |input|
    decreases |input|
  {
    hide Round, Valid;
    if Busy(r) then FeedResult(r, 0, None)
    else
      var (f, goesOn) := Round(r, input);
      if goesOn then Later(FeedLoop(f.receiver, input[f.consumed..]), f.consumed) else f
  }

  function FeedIncoming(r: Receiver, input: seq<byte>): (res: FeedResult)
    requires Valid(r)
    ensures Valid(res.receiver) && res.consumed <= |input|
  {
    if r.pendingErr.Some? then FeedResult(r, 0, r.pendingErr) else FeedLoop(r, input)
  }

  function DrainFile(r: Receiver): (res: (Receiver, seq<byte>))
    requires Valid(r)
    ensures Valid(res.0)
  {
    if !r.sub.phase.Ready? then (r, [])
    else
      var (next, err) := FinishSubpacket(r);
      (if err.Some? then next.(pendingErr := err) else next, r.sub.buf)
  }

  /** The queued answer, as the bytes the source keeps in its outgoing buffer. */
  function OutgoingBytes(r: Receiver): seq<byte> {
    match r.answer
    case None => []
    case Some(h) => Encode(h)
  }

  function DrainOutgoing(r: Receiver): (Receiver, seq<byte>) { (r.(answer := None), OutgoingBytes(r)) }

  function PollEvent(r: Receiver): (Receiver, Option<Event>) {
    if r.events == [] then (r, None) else (r.(events := r.events[1..]), Some(r.events[0]))
  }

  /** The outgoing buffer is empty exactly when no answer is queued. */
  lemma OutgoingEmpty(r: Receiver)
    ensures OutgoingBytes(r) == [] <==> r.answer.None?
  {
    if r.answer.Some? {
      assert |Encode(r.answer.value)| > 0;
    }
  }
}
