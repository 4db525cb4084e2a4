/** What a receiver hands out is safe against any peer: in every run, over any input bytes, its record
    of accepted frames, subpackets and completions obeys the rules below. */
module ReceiverSafety {
  import opened Bytes
  import opened Options
  import opened Sequences
  import opened Headers
  import opened Subpackets
  import opened ReceiverSpec

  // ----- the rules, on the record alone -----

  /** The bytes handed out since the last file start. */
  function Delivered(h: seq<Entry>): seq<byte> {
    if h == [] || Last(h).Started? then []
    else if Last(h).Drained? then Delivered(Front(h)) + Last(h).data
    else Delivered(Front(h))
  }

  /** The subpacket that was accepted and not yet handed out. */
  function Waiting(h: seq<Entry>): Option<seq<byte>> {
    if h == [] || Last(h).Drained? || Last(h).Started? then None
    else if Last(h).Accepted? then Some(Last(h).data)
    else Waiting(Front(h))
  }

  /** A data frame has been opened and its last accepted subpacket did not close it. */
  predicate FrameOpen(h: seq<Entry>) {
    if h == [] then false
    else
      match Last(h)
      case Framed(_) => true
      case Accepted(_, kind, _, _) => FrameOpen(Front(h)) && Continues(kind)
      case Drained(_) => FrameOpen(Front(h))
      case _ => false
  }

  /** The rule for the next entry of a legal record. */
  predicate MayFollow(before: seq<Entry>, e: Entry) {
    match e
    case Started(name, size) => name != [] && 0 <= size <= MAX_COUNT && Waiting(before).None?
    case Framed(offset) => offset == |Delivered(before)| && Waiting(before).None?
    case Accepted(data, kind, encoding, crc) =>
      && FrameOpen(before) && Waiting(before).None?
      && |data| <= MAX_SUBPACKET
      && crc == Checksum(encoding, data + [kind])
    case Drained(data) => Waiting(before) == Some(data)
    case Completed(offset) => offset == |Delivered(before)| && Waiting(before).None? && !FrameOpen(before)
    case Ended => Waiting(before).None? && !FrameOpen(before)
  }

  predicate Legal(h: seq<Entry>) {
    h != [] ==> Legal(Front(h)) && MayFollow(Front(h), Last(h))
  }

  function EventsOf(h: seq<Entry>): seq<Event> {
    if h == [] then [] else EventsOf(Front(h)) + EventOf(Last(h))
  }

  /** All bytes ever handed out. */
  function AllDrained(h: seq<Entry>): seq<byte> {
    if h == [] then []
    else if Last(h).Drained? then AllDrained(Front(h)) + Last(h).data
    else AllDrained(Front(h))
  }

  function EventOf(e: Entry): seq<Event> {
    match e
    case Started(_, _) => [FileStart]
    case Completed(_) => [FileComplete]
    case Ended => [SessionComplete]
    case _ => []
  }

  lemma Snoc(h: seq<Entry>, e: Entry)
    ensures var g := h + [e];
      && (Legal(g) <==> Legal(h) && MayFollow(h, e))
      && Delivered(g) == (if e.Started? then [] else if e.Drained? then Delivered(h) + e.data else Delivered(h))
      && Waiting(g) == (if e.Drained? || e.Started? then None else if e.Accepted? then Some(e.data) else Waiting(h))
      && (FrameOpen(g) <==> e.Framed? || ((e.Drained? || (e.Accepted? && Continues(e.kind))) && FrameOpen(h)))
      && EventsOf(g) == EventsOf(h) + EventOf(e)
      && AllDrained(g) == (if e.Drained? then AllDrained(h) + e.data else AllDrained(h))
  {
    assert Last(h + [e]) == e && Front(h + [e]) == h;
  }

  // ----- runs -----

  datatype Op = Feed(input: seq<byte>) | DrainData | DrainAnswer | Poll

  datatype Run = Run(receiver: Receiver, polled: seq<Event>, drained: seq<byte>)

  function Do(s: Run, op: Op): (t: Run)
    requires Valid(s.receiver)
    ensures Valid(t.receiver)
  {
    match op
    case Feed(input) => s.(receiver := FeedIncoming(s.receiver, input).receiver)
    case DrainData => var (r, data) := DrainFile(s.receiver); s.(receiver := r, drained := s.drained + data)
    case DrainAnswer => s.(receiver := DrainOutgoing(s.receiver).0)
    case Poll =>
      var (r, e) := PollEvent(s.receiver);
      s.(receiver := r, polled := if e.Some? then s.polled + [e.value] else s.polled)
  }

  function DoAll(s: Run, ops: seq<Op>): (t: Run)
    requires Valid(s.receiver)
    ensures Valid(t.receiver)
    decreases |ops|
  {
    if ops == [] then s else DoAll(Do(s, ops[0]), ops[1..])
  }

  function Start(): Run { Run(NewReceiver(), [], []) }

  // ----- the invariant -----

  /** How the fields of a receiver reflect its record. */
  ghost predicate Reflects(r: Receiver) {
    && Legal(r.history)
    && |Delivered(r.history)| == r.count
    && Waiting(r.history) == (if r.HasFileData() then Some(r.sub.buf) else None)
    && (FrameOpen(r.history) <==> r.state.ReadingSubpacket? && (r.HasFileData() ==> Continues(r.sub.kind)))
  }

  ghost predicate Inv(s: Run) {
    && Valid(s.receiver)
    && Reflects(s.receiver)
    && s.polled + s.receiver.events == EventsOf(s.receiver.history)
    && s.drained == AllDrained(s.receiver.history)
  }

  /** The step from `r` to `t` keeps the record legal and adds to `t.events` what the record gained. */
  ghost predicate Keeps(r: Receiver, t: Receiver) {
    && Valid(t) && Reflects(t)
    && t.pendingErr == r.pendingErr
    && AllDrained(t.history) == AllDrained(r.history)
    && r.events <= t.events
    && EventsOf(t.history) == EventsOf(r.history) + t.events[|r.events|..]
  }

  lemma KeepsTrans(r: Receiver, t: Receiver, u: Receiver)
    requires Keeps(r, t) && Keeps(t, u)
    ensures Keeps(r, u)
  {
    hide Legal, Delivered, Waiting, FrameOpen, EventsOf, AllDrained, Valid;
    assert u.events[|r.events|..] == t.events[|r.events|..] + u.events[|t.events|..];
  }

  /** A step that touches neither record, count, events nor the pending subpacket. */
  lemma QuietKeeps(r: Receiver, t: Receiver)
    requires Valid(r) && Reflects(r) && Valid(t)
    requires t.history == r.history && t.count == r.count && t.events == r.events && t.pendingErr == r.pendingErr
    requires t.HasFileData() == r.HasFileData() && t.state.ReadingSubpacket? == r.state.ReadingSubpacket?
    requires r.HasFileData() ==> t.sub == r.sub
    ensures Keeps(r, t)
  {
    hide Legal, Delivered, Waiting, FrameOpen, EventsOf, AllDrained, Valid;
  }

  /** A step that adds an allowed entry other than a drain. */
  lemma LogKeeps(r: Receiver, t: Receiver, e: Entry)
    requires Valid(r) && Reflects(r) && Valid(t)
    requires t.history == r.history + [e] && MayFollow(r.history, e) && !e.Drained?
    requires t.events == r.events + EventOf(e) && t.pendingErr == r.pendingErr
    requires t.count == (if e.Started? then 0 else r.count)
    requires t.HasFileData() == e.Accepted? && (e.Accepted? ==> t.sub.buf == e.data && t.sub.kind == e.kind)
    requires !r.HasFileData()
    requires t.state.ReadingSubpacket? == (e.Framed? || e.Accepted?)
    ensures Keeps(r, t)
  {
    hide Legal, Delivered, Waiting, FrameOpen, EventsOf, AllDrained, Valid;
    Snoc(r.history, e);
  }

  lemma OnZdataKeeps(r: Receiver, h: Header)
    requires Valid(r) && Reflects(r) && !r.Reading()
    ensures Keeps(r, OnZdata(r, h))
  {
    hide Legal, Delivered, Waiting, FrameOpen, EventsOf, AllDrained, CountOf, ValidReader;
    var t := OnZdata(r, h);
    if t.history == r.history {
      QuietKeeps(r, t);
    } else {
      LogKeeps(r, t, Framed(h.Count()));
    }
  }

  lemma OnZeofKeeps(r: Receiver, h: Header)
    requires Valid(r) && Reflects(r) && !r.Reading()
    ensures Keeps(r, OnZeof(r, h))
  {
    hide Legal, Delivered, Waiting, FrameOpen, EventsOf, AllDrained, CountOf, ValidReader;
    var t := OnZeof(r, h);
    if t == r {
      QuietKeeps(r, t);
    } else {
      LogKeeps(r, t, Completed(h.Count()));
    }
  }

  lemma OnZfinKeeps(r: Receiver)
    requires Valid(r) && Reflects(r) && !r.Reading()
    ensures Keeps(r, OnZfin(r))
  {
    hide Legal, Delivered, Waiting, FrameOpen, EventsOf, AllDrained, ValidReader;
    var t := OnZfin(r);
    if t == r {
      QuietKeeps(r, t);
    } else {
      LogKeeps(r, t, Ended);
    }
  }

  lemma HandleHeaderKeeps(r: Receiver, h: Header)
    requires Valid(r) && Reflects(r) && !r.Reading()
    ensures Keeps(r, HandleHeader(r, h))
  {
    hide Legal, Delivered, Waiting, FrameOpen, EventsOf, AllDrained, OnZdata, OnZeof, OnZfin, ValidReader;
    if h.frame == ZDATA {
      OnZdataKeeps(r, h);
    } else if h.frame == ZEOF {
      OnZeofKeeps(r, h);
    } else if h.frame == ZFIN {
      OnZfinKeeps(r);
    } else {
      QuietKeeps(r, HandleHeader(r, h));
    }
  }

  lemma FinishReflects(r: Receiver)
    requires Valid(r) && Reflects(r) && r.HasFileData()
    ensures var (t, err) := FinishSubpacket(r);
      && (err.Some? <==> r.count + |r.sub.buf| > MAX_COUNT)
      && (err.Some? ==> t == r)
      && (err.None? ==>
        && Valid(t) && Reflects(t) && t.events == r.events && t.pendingErr == r.pendingErr
        && EventsOf(t.history) == EventsOf(r.history)
        && AllDrained(t.history) == AllDrained(r.history) + r.sub.buf)
  {
    hide Legal, Delivered, Waiting, FrameOpen, EventsOf, AllDrained, CountOf, ValidReader;
    Snoc(r.history, Drained(r.sub.buf));
  }

  lemma AcceptDataKeeps(r: Receiver)
    requires Valid(r) && Reflects(r) && r.state.ReadingSubpacket? && r.sub.phase.Checking?
    requires r.sub.crcBuf == Checksum(r.sub.encoding, r.sub.buf + [r.sub.kind])
    ensures Keeps(r, AcceptData(r).0)
  {
    hide Legal, Delivered, Waiting, FrameOpen, EventsOf, AllDrained, Checksum, FinishSubpacket, ValidReader;
    LogKeeps(r, Accept(r), Accepted(r.sub.buf, r.sub.kind, r.sub.encoding, r.sub.crcBuf));
    if r.sub.buf == [] {
      FinishReflects(Accept(r));
      KeepsTrans(r, Accept(r), AcceptData(r).0);
    }
  }

  lemma AcceptMetadataKeeps(r: Receiver)
    requires Valid(r) && Reflects(r) && r.state.ReadingMetadata? && !r.HasFileData()
    ensures Keeps(r, AcceptMetadata(r).0)
  {
    hide Legal, Delivered, Waiting, FrameOpen, EventsOf, AllDrained, FileInfo.ParseSize, FileInfo.Before, CountOf,
         ValidReader;
    var (parsed, err) := ParseZfile(r);
    if err.Some? {
      QuietKeeps(r, parsed);
    } else {
      LogKeeps(r, BeginFile(parsed), Started(parsed.fileName, parsed.fileSize));
    }
  }

  lemma ProcessKeeps(r: Receiver, input: seq<byte>)
    requires Valid(r) && Reflects(r) && r.Reading()
    ensures Keeps(r, Process(r, input).receiver)
  {
    hide Legal, Delivered, Waiting, FrameOpen, EventsOf, AllDrained, ReadSub, AcceptData, AcceptMetadata,
         Checksum, ValidReader;
    var x := ReadSub(r.sub, input);
    var read := r.(sub := x.sub);
    QuietKeeps(r, read);
    if x.verdict.Intact? {
      if r.state.ReadingMetadata? {
        AcceptMetadataKeeps(read);
      } else {
        AcceptDataKeeps(read);
      }
      KeepsTrans(r, read, Process(r, input).receiver);
    }
  }

  lemma RoundKeeps(r: Receiver, input: seq<byte>)
    requires Valid(r) && Reflects(r)
    ensures Keeps(r, Round(r, input).0.receiver)
  {
    hide Legal, Delivered, Waiting, FrameOpen, EventsOf, AllDrained, HandleHeader, Process, Read, Decoded, ValidSub;
    if r.Reading() {
      ProcessKeeps(r, input);
    } else {
      var found := Read(r.reader, input);
      var seen := r.(reader := found.reader);
      QuietKeeps(r, seen);
      match Decoded(found.raw) {
        case Found(h) =>
          HandleHeaderKeeps(seen, h);
          KeepsTrans(r, seen, HandleHeader(seen, h));
        case _ =>
      }
    }
  }

  lemma {:induction false} FeedLoopKeeps(r: Receiver, input: seq<byte>)
    requires Valid(r) && Reflects(r)
    ensures Keeps(r, FeedLoop(r, input).receiver)
    decreases |input|
  {
    hide Legal, Delivered, Waiting, FrameOpen, EventsOf, AllDrained, Round, Valid;
    if Busy(r) {
      QuietKeeps(r, r);
    } else {
      var (f, goesOn) := Round(r, input);
      RoundKeeps(r, input);
      if goesOn {
        FeedLoopKeeps(f.receiver, input[f.consumed..]);
        KeepsTrans(r, f.receiver, FeedLoop(r, input).receiver);
      }
    }
  }

  lemma DoKeepsInv(s: Run, op: Op)
    requires Inv(s) && Do(s, op).receiver.pendingErr.None?
    ensures Inv(Do(s, op))
  {
    hide Delivered, Waiting, FrameOpen, EventsOf, AllDrained, FeedLoop, Legal;
    var r := s.receiver;
    var t := Do(s, op);
    match op
    case Feed(input) =>
      FeedLoopKeeps(r, input);
      assert t.receiver.events == r.events + t.receiver.events[|r.events|..];
    case DrainData =>
      if r.HasFileData() {
        FinishReflects(r);
      }
    case DrainAnswer =>
    case Poll =>
      if r.events != [] {
        assert [r.events[0]] + r.events[1..] == r.events;
      }
  }

  lemma {:induction false} DoAllKeepsInv(s: Run, ops: seq<Op>)
    requires Inv(s)
    ensures DoAll(s, ops).receiver.pendingErr.None? ==> Inv(DoAll(s, ops))
    decreases |ops|
  {
    hide Do;
    if ops != [] {
      var t := Do(s, ops[0]);
      if t.receiver.pendingErr.None? {
        DoKeepsInv(s, ops[0]);
        DoAllKeepsInv(t, ops[1..]);
      } else {
        PendingErrSticks(t, ops[1..]);
      }
    }
  }

  lemma DoKeepsPendingErr(s: Run, op: Op)
    requires Valid(s.receiver) && s.receiver.pendingErr.Some?
    ensures Do(s, op).receiver.pendingErr.Some?
  {
    hide FeedLoop;
  }

  lemma {:induction false} PendingErrSticks(s: Run, ops: seq<Op>)
    requires Valid(s.receiver) && s.receiver.pendingErr.Some?
    ensures DoAll(s, ops).receiver.pendingErr.Some?
    decreases |ops|
  {
    hide Do;
    if ops != [] {
      DoKeepsPendingErr(s, ops[0]);
      PendingErrSticks(Do(s, ops[0]), ops[1..]);
    }
  }

  /** Safety of every run: as long as the count has not overflowed, the record is legal, the bytes
      drained since the last file start number exactly `count`, and what the caller polled and drained
      is what the record says. */
  lemma ReceiverIsSafe(ops: seq<Op>)
    ensures var s := DoAll(Start(), ops);
      s.receiver.pendingErr.None? ==>
        && Legal(s.receiver.history)
        && |Delivered(s.receiver.history)| == s.receiver.count
        && s.polled + s.receiver.events == EventsOf(s.receiver.history)
        && s.drained == AllDrained(s.receiver.history)
  {
    if DoAll(Start(), ops).receiver.pendingErr.None? {
      DoAllKeepsInv(Start(), ops);
    }
  }

  // ----- what legality means for a file -----

  /** The subpackets accepted since the last file start, in order. */
  function AcceptedBytes(h: seq<Entry>): seq<byte> {
    if h == [] || Last(h).Started? then []
    else if Last(h).Accepted? then AcceptedBytes(Front(h)) + Last(h).data
    else AcceptedBytes(Front(h))
  }

  /** Nothing is lost, repeated or reordered between acceptance and delivery. */
  lemma {:induction false} DeliveredIsAccepted(h: seq<Entry>)
    requires Legal(h)
    ensures AcceptedBytes(h) == Delivered(h) + (if Waiting(h).Some? then Waiting(h).value else [])
    decreases |h|
  {
    if h != [] {
      DeliveredIsAccepted(Front(h));
    }
  }

  // ----- the limit of exactly-once delivery -----

  /** Draining a non-empty subpacket empties it exactly when the count stays within 32 bits. */
  lemma DrainsOnceIffInRange(r: Receiver)
    requires Valid(r) && Reflects(r) && r.HasFileData() && r.sub.buf != []
    ensures DrainFile(DrainFile(r).0).1 == [] <==> r.count + |r.sub.buf| <= MAX_COUNT
    ensures r.count + |r.sub.buf| > MAX_COUNT ==>
      DrainFile(DrainFile(r).0).1 == r.sub.buf == DrainFile(r).1 && DrainFile(r).0.pendingErr.Some?
  {
    FinishReflects(r);
  }
}
