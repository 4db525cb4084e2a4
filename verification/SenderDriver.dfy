/** The owner of a sender: it feeds what the peer sends, answers requests from the file on disk, and reacts to
    events. Whatever the peer does, the sender is never misused and no event is lost. */
module SenderDriver {
  import opened Bytes
  import opened Options
  import opened Headers
  import S = SenderSpec
  import Senders

  /** A file to send: the size announced for it and what reading it will give. */
  datatype SendFile = SendFile(name: seq<byte>, size: int, content: seq<byte>)

  // ----- the states a driven sender can be in -----

  predicate InFile(state: S.State) {
    state.WaitFilePos? || state.NeedFileData? || state.WaitFileAck? || state.WaitFileDone?
  }

  ghost predicate Orderly(s: S.Sender) {
    && S.Valid(s)
    && (s.finishRequested <==> s.state.WaitFinish? || s.state.Done?)
    && (InFile(s.state) ==> s.hasFile)
    && (s.state.ReadyForFile? ==> !s.hasFile)
    && (s.event == Some(S.FileComplete) ==> s.state.ReadyForFile? && s.outgoing.Empty?)
    && (s.event == Some(S.SessionComplete) ==> s.state.Done?)
    && !s.outgoing.Cut?
  }

  /** Nothing is left to do until the peer sends more. */
  ghost predicate Flushed(s: S.Sender) { Orderly(s) && s.outgoing.Empty? && s.request.None? && s.event.None? }

  // ----- feeding -----

  /** What feeding may do to a sender in order: it stays in order, an event that waits to be polled is not
      overwritten, and before the first file is started there is none. */
  ghost predicate FedFrom(s: S.Sender, t: S.Sender) {
    && Orderly(t) && t.finishRequested == s.finishRequested
    && (s.event.Some? ==> t.event == s.event)
    && (!s.hasFile && !s.finishRequested ==> !t.hasFile && t.event == s.event)
  }

  /** Only a finished file can be waiting while headers are still taken. */
  lemma WaitingEvent(s: S.Sender)
    requires Orderly(s) && !S.Busy(s)
    ensures s.event.None? || s.event == Some(S.FileComplete)
  {
    hide ValidReader, S.MessageBytes;
    match s.event {
      case None =>
      case Some(e) =>
        match e {
          case FileComplete =>
          case SessionComplete =>
        }
    }
  }

  lemma ZrinitKeepsOrder(s: S.Sender, h: Header)
    requires Orderly(s) && !S.Busy(s) && S.OnZrinit(s, h).1.None?
    ensures FedFrom(s, S.OnZrinit(s, h).0)
  {
    hide ValidReader, S.MessageBytes, S.FitsOutgoing;
    WaitingEvent(s);
  }

  lemma ZrposKeepsOrder(s: S.Sender, offset: int)
    requires Orderly(s) && !S.Busy(s) && 0 <= offset <= MAX_COUNT
    ensures FedFrom(s, S.OnZrpos(s, offset))
  {
    hide ValidReader, S.MessageBytes;
    WaitingEvent(s);
  }

  lemma HeaderKeepsOrder(s: S.Sender, h: Header)
    requires Orderly(s) && !S.Busy(s) && S.HandleHeader(s, h).1.None?
    ensures FedFrom(s, S.HandleHeader(s, h).0)
  {
    hide ValidReader, S.MessageBytes, S.OnZrinit, S.OnZrpos;
    if h.frame == ZRINIT {
      ZrinitKeepsOrder(s, h);
    } else if h.frame == ZRPOS || h.frame == ZACK {
      ZrposKeepsOrder(s, h.Count());
    } else {
      WaitingEvent(s);
    }
  }

  lemma RoundKeepsOrder(s: S.Sender, input: seq<byte>)
    requires Orderly(s) && !S.Busy(s)
    ensures var (f, goesOn) := S.Round(s, input);
      f.err.None? ==> FedFrom(s, f.sender)
  {
    hide ValidReader, S.MessageBytes, S.HandleHeader, Read, Decoded;
    var found := Read(s.reader, input);
    var seen := s.(reader := found.reader);
    assert Orderly(seen) && !S.Busy(seen);
    if Decoded(found.raw).Found? && S.HandleHeader(seen, Decoded(found.raw).header).1.None? {
      HeaderKeepsOrder(seen, Decoded(found.raw).header);
    }
  }

  /** However many headers one input holds. */
  lemma {:induction false} FeedKeepsOrder(s: S.Sender, input: seq<byte>)
    requires Orderly(s) && S.FeedIncoming(s, input).err.None?
    ensures FedFrom(s, S.FeedIncoming(s, input).sender)
    decreases |input|
  {
    hide S.Round, Orderly;
    if !S.Busy(s) {
      assert S.Valid(s) by {
        OrderlyIsValid(s);
      }
      RoundKeepsOrder(s, input);
      var (f, goesOn) := S.Round(s, input);
      if goesOn {
        FeedKeepsOrder(f.sender, input[f.consumed..]);
      }
    }
  }

  lemma OrderlyIsValid(s: S.Sender)
    ensures Orderly(s) ==> S.Valid(s)
  {}

  // ----- the owner's calls -----

  predicate Misuse(e: Error) { e == UnsupportedState || e == PendingOutgoing }

  /** A chunk of what the file still has is always accepted, and another request lies further on. */
  lemma ChunkAccepted(s: S.Sender, data: seq<byte>)
    requires Orderly(s) && s.outgoing.Empty? && s.request.Some? && 1 <= |data| <= s.request.value.len
    ensures var (t, err) := S.FeedFile(s, data);
      && err.None? && Orderly(t) && t.event == s.event && t.outgoing.Whole?
      && (t.request.Some? ==> t.request.value.offset == s.request.value.offset + |data| && t.fileSize == s.fileSize)
      && !t.state.ReadyForFile?
  {
    hide ValidReader, S.MessageBytes;
  }

  /** Starting the next file after one is complete fails only because of the file itself. */
  lemma NextFileStarts(s: S.Sender, name: seq<byte>, size: int)
    requires Orderly(s) && s.state.ReadyForFile? && s.outgoing.Empty? && s.event.None?
    ensures var (t, err) := S.StartFile(s, name, size);
      if err.Some? then (size < 0 || size > MAX_COUNT || !S.FitsOutgoing(name, size)) && !Misuse(err.value)
      else Orderly(t) && t.state.WaitFilePos? && t.request.None? && t.event.None?
  {
    hide ValidReader, S.MessageBytes;
  }

  /** So does starting the first one, on a sender that has been flushed. */
  lemma FirstFileStarts(s: S.Sender, name: seq<byte>, size: int)
    requires Flushed(s) && !s.hasFile && !s.finishRequested
    ensures var (t, err) := S.StartFile(s, name, size);
      if err.Some? then !Misuse(err.value) else Orderly(t) && t.request.None? && t.event.None?
  {
    hide ValidReader, S.MessageBytes;
  }

  lemma NothingWaits(s: S.Sender)
    requires Orderly(s) && !s.hasFile && s.event.None?
    ensures S.Valid(s) && s.request.None?
  {}

  lemma SessionFinishes(s: S.Sender)
    requires Orderly(s) && s.state.ReadyForFile? && s.outgoing.Empty? && s.event.None?
    ensures var (t, err) := S.FinishSession(s);
      err.None? && Orderly(t) && t.state.WaitFinish? && t.request.None? && t.event.None?
  {
    hide ValidReader, S.MessageBytes;
  }

  // ----- what the owner does, as a function -----

  datatype Failure = SourceTooShort | Refused(error: Error)

  /** The sender, the place of the current file, and everything written to the peer. */
  datatype Owner = Owner(s: S.Sender, index: nat, line: seq<byte>)

  /** What the sender has queued goes out. */
  function Written(o: Owner): Owner
    requires S.Valid(o.s)
  {
    Owner(S.Drained(o.s), o.index, o.line + S.OutgoingBytes(o.s))
  }

  /** What reading the file at a position gives, at most as much as asked for. */
  function Available(content: seq<byte>, offset: int, len: int): seq<byte> {
    if offset < 0 || offset >= |content| || len <= 0 then []
    else if offset + len <= |content| then content[offset..offset + len]
    else content[offset..]
  }

  /** The data for the pending request. */
  function Requested(files: seq<SendFile>, o: Owner): seq<byte>
    requires o.s.request.Some?
  {
    Available(if o.index < |files| then files[o.index].content else [], o.s.request.value.offset, o.s.request.value.len)
  }

  lemma FeedingGoesOn(s: S.Sender, data: seq<byte>)
    requires S.Valid(s) && s.outgoing.Empty? && s.request.Some? && 1 <= |data| <= s.request.value.len
    ensures var t := S.FeedFile(s, data).0;
      && t.fileSize == s.fileSize && (t.request.Some? ==> t.request.value.offset == s.request.value.offset + |data|)
      && 0 <= s.request.value.offset + |data| <= s.fileSize
  {
    hide ValidReader, S.MessageBytes;
  }

  lemma RequestedFits(files: seq<SendFile>, o: Owner)
    requires o.s.request.Some?
    ensures |Requested(files, o)| <= o.s.request.value.len || Requested(files, o) == []
  {}

  /** Requests are answered, one after another, with what the current file has from the position asked for. */
  function Answered(files: seq<SendFile>, o: Owner): (Owner, Option<Failure>)
    requires S.Valid(o.s) && o.s.outgoing.Empty?
    decreases if o.s.request.Some? then o.s.fileSize - o.s.request.value.offset else -1
  {
    hide S.Valid, S.FeedFile, S.OutgoingBytes, Requested;
    if o.s.request.None? then (o, None)
    else
      var data := Requested(files, o);
      if data == [] then (o, Some(SourceTooShort))
      else
        RequestedFits(files, o);
        FeedingGoesOn(o.s, data);
        Answered(files, Written(o.(s := S.FeedFile(o.s, data).0)))
  }

  /** What the event that waits leads to: the next file is started, or, after the last one, the session finished. */
  function Reacted(files: seq<SendFile>, o: Owner): (Owner, bool, Option<Failure>)
    requires S.Valid(o.s)
  {
    hide S.Valid, S.StartFile, S.FinishSession;
    match o.s.event
    case None => (o, false, None)
    case Some(SessionComplete) => (o.(s := S.PollEvent(o.s).0), true, None)
    case Some(FileComplete) =>
      var next, polled := o.index + 1, S.PollEvent(o.s).0;
      var (t, err) := if next < |files| then S.StartFile(polled, files[next].name, files[next].size)
                      else S.FinishSession(polled);
      (Owner(t, next, o.line), false, if err.Some? then Some(Refused(err.value)) else None)
  }

  lemma {:induction false} AnsweredIsValid(files: seq<SendFile>, o: Owner)
    requires S.Valid(o.s) && o.s.outgoing.Empty?
    ensures S.Valid(Answered(files, o).0.s)
    decreases if o.s.request.Some? then o.s.fileSize - o.s.request.value.offset else -1
  {
    hide S.Valid, S.FeedFile, S.OutgoingBytes, Requested;
    if o.s.request.Some? && Requested(files, o) != [] {
      RequestedFits(files, o);
      FeedingGoesOn(o.s, Requested(files, o));
      AnsweredIsValid(files, Written(o.(s := S.FeedFile(o.s, Requested(files, o)).0)));
    }
  }

  lemma ReactedIsValid(files: seq<SendFile>, o: Owner)
    requires S.Valid(o.s)
    ensures S.Valid(Reacted(files, o).0.s)
  {
    hide S.Valid, S.StartFile, S.FinishSession;
  }

  /** One lap: what is queued goes out, requests are answered, and the event that waits is reacted to. */
  function Lapped(files: seq<SendFile>, o: Owner): (res: (Owner, bool, Option<Failure>))
    requires S.Valid(o.s)
    ensures S.Valid(res.0.s)
  {
    hide S.Valid, Answered, Reacted;
    var (answered, short) := Answered(files, Written(o));
    AnsweredIsValid(files, Written(o));
    ReactedIsValid(files, answered);
    if short.Some? then (answered, false, short) else Reacted(files, answered)
  }

  /** Laps until nothing is left to do: behind the first one there is only its last message to write. */
  function FlushedOwner(files: seq<SendFile>, o: Owner): (Owner, bool, Option<Failure>)
    requires S.Valid(o.s)
  {
    hide S.Valid, Lapped;
    var (lapped, over, failure) := Lapped(files, o);
    if over || failure.Some? then (lapped, over, failure) else (Written(lapped), false, None)
  }

  /** Output of the peer goes to the sender, and everything that follows from it is done. */
  function ConsumedOwner(files: seq<SendFile>, o: Owner, data: seq<byte>): (Owner, bool, Option<Failure>)
    requires S.Valid(o.s)
  {
    hide S.Valid, S.FeedIncoming, FlushedOwner;
    var f := S.FeedIncoming(o.s, data);
    if f.err.Some? then (o.(s := f.sender), false, Some(Refused(f.err.value)))
    else FlushedOwner(files, o.(s := f.sender))
  }

  /** The first file is started. */
  function StartedOwner(files: seq<SendFile>, o: Owner): (Owner, bool, Option<Failure>)
    requires S.Valid(o.s) && files != []
  {
    hide S.Valid, S.StartFile, FlushedOwner;
    var (t, err) := S.StartFile(o.s, files[0].name, files[0].size);
    if err.Some? then (o.(s := t), false, Some(Refused(err.value))) else FlushedOwner(files, o.(s := t))
  }

  lemma QuietLap(files: seq<SendFile>, o: Owner)
    requires S.Valid(o.s) && o.s.request.None? && o.s.event.None?
    ensures Lapped(files, o) == (Written(o), false, None) && Written(Written(o)) == Written(o)
    ensures o.s.outgoing.Empty? ==> Written(o) == o
    ensures FlushedOwner(files, o) == (Written(o), false, None)
  {
    hide S.MessageBytes, ValidReader;
  }

  // ----- the loops -----

  class ZmodemSend {
    const sender: Senders.Sender
    const files: seq<SendFile>
    var index: nat
    var line: seq<byte>

    ghost const Repr: set<object> := {this, sender, sender.reader}

    /** The sender is in order, and a file that it holds is the current one. */
    ghost predicate Valid()
      reads Repr
    {
      && sender.Valid() && Orderly(sender.Model())
      && (!sender.finishRequested ==> index < |files|)
    }

    constructor (files: seq<SendFile>)
      requires files != []
      ensures Valid() && this.files == files && index == 0 && line == [] && fresh(Repr)
      ensures sender.Model() == S.NewSender(false)
    {
      hide S.MessageBytes;
      this.files, index, line := files, 0, [];
      sender := new Senders.Sender(false);
    }

    ghost function State(): Owner
      reads this, sender, sender.reader
    {
      Owner(sender.Model(), index, line)
    }

    method WriteOutgoing() returns (progress: bool)
      requires Valid()
      modifies sender`outgoing, sender`queued, this`line
      ensures Valid() && sender.Model() == S.Drained(old(sender.Model()))
      ensures progress <==> old(sender.outgoing) != []
      ensures line == old(line) + S.OutgoingBytes(old(sender.Model()))
    {
      hide S.MessageBytes, ValidReader;
      var data := sender.DrainOutgoing();
      line := line + data;
      progress := data != [];
    }

    /** Answers requests until there is none, from the bytes of the current file. */
    method AnswerRequests() returns (progress: bool, failure: Option<Failure>)
      requires Valid() && sender.outgoing == []
      modifies Repr
      ensures Valid() && index == old(index) && old(line) <= line
      ensures failure.Some? ==> failure.value.SourceTooShort?
      ensures failure.None? ==> sender.request.None? && sender.outgoing == []
      ensures sender.event == old(sender.event)
      ensures progress <==> old(sender.request).Some?
      ensures !progress ==> failure.None? && sender.Model() == old(sender.Model())
      ensures S.Valid(old(sender.Model())) && old(sender.Model()).outgoing.Empty?
      ensures (State(), failure) == Answered(files, old(State()))
    {
      hide S.MessageBytes, ValidReader, Orderly, S.FeedFile, S.Valid, S.OutgoingBytes;
      progress, failure := false, None;
      OutgoingEmpty();
      while sender.request.Some?
        invariant Valid() && index == old(index) && old(line) <= line && sender.outgoing == []
        invariant sender.event == old(sender.event)
        invariant progress || sender.Model() == old(sender.Model())
        invariant progress ==> old(sender.request).Some?
        invariant sender.Model().outgoing.Empty?
        invariant Answered(files, State()) == Answered(files, old(State()))
        decreases if sender.request.Some? then sender.fileSize - sender.request.value.offset else -1
      {
        progress := true;
        RequestIsSane();
        var offset, len := sender.request.value.offset, sender.request.value.len;
        var content := files[index].content;
        var n := if offset >= |content| then 0 else if offset + len <= |content| then len else |content| - offset;
        ghost var before := State();
        if n <= 0 {
          assert Requested(files, before) == [];
          return true, Some(SourceTooShort);
        }
        assert content[offset..offset + n] == Requested(files, before);
        ChunkAccepted(sender.Model(), content[offset..offset + n]);
        var err := sender.FeedFile(content[offset..offset + n]);
        ghost var fed := State();
        assert fed == before.(s := S.FeedFile(before.s, Requested(files, before)).0);
        var written := WriteOutgoing();
        assert State() == Written(fed);
        OutgoingEmpty();
      }
    }

    lemma OutgoingEmpty()
      requires Valid()
      ensures sender.outgoing == [] <==> sender.Model().outgoing.Empty?
    {
      hide S.MessageBytes, ValidReader;
      if sender.Model().outgoing.Whole? {
        S.MessagesFit(sender.Model().outgoing.message);
      }
    }

    lemma RequestIsSane()
      requires Valid() && sender.request.Some?
      ensures index < |files| && 0 <= sender.request.value.offset < sender.fileSize && sender.request.value.len >= 1
    {
      hide S.MessageBytes, ValidReader;
    }

    method AdvanceFile() returns (failure: Option<Failure>)
      requires Valid() && sender.state.ReadyForFile? && sender.outgoing == [] && sender.event.None?
      modifies Repr
      ensures old(line) == line && index == old(index) + 1
      ensures failure.Some? ==> failure.value.Refused? && !Misuse(failure.value.error)
      ensures failure.None? ==> Valid() && sender.request.None? && sender.event.None?
      ensures S.Valid(old(sender.Model())) && var next := old(index) + 1;
        var (t, err) := if next < |files| then S.StartFile(old(sender.Model()), files[next].name, files[next].size)
                        else S.FinishSession(old(sender.Model()));
        State() == Owner(t, next, old(line)) && failure == if err.Some? then Some(Refused(err.value)) else None
    {
      hide S.MessageBytes, ValidReader, S.StartFile, S.FinishSession, S.FitsOutgoing;
      OutgoingEmpty();
      index := index + 1;
      var err;
      if index < |files| {
        NextFileStarts(sender.Model(), files[index].name, files[index].size);
        err := sender.StartFile(files[index].name, files[index].size);
      } else {
        SessionFinishes(sender.Model());
        err := sender.FinishSession();
      }
      failure := if err.Some? then Some(Refused(err.value)) else None;
    }

    /** Reacts to the event that waits, if one does. */
    method HandleEvents() returns (progress: bool, over: bool, failure: Option<Failure>)
      requires Valid() && sender.request.None? && sender.outgoing == []
      modifies Repr
      ensures old(line) == line
      ensures failure.Some? ==> failure.value.Refused? && !Misuse(failure.value.error)
      ensures failure.None? ==> Valid() && sender.request.None? && sender.event.None?
      ensures !progress ==> failure.None? && sender.Model() == old(sender.Model())
      ensures progress <==> old(sender.event).Some?
      ensures over <==> old(sender.event) == Some(S.SessionComplete)
      ensures index == old(index) + if old(sender.event) == Some(S.FileComplete) then 1 else 0
      ensures S.Valid(old(sender.Model())) && (State(), over, failure) == Reacted(files, old(State()))
    {
      hide S.MessageBytes, ValidReader, S.FitsOutgoing, S.StartFile, S.FinishSession;
      progress, over, failure := false, false, None;
      var event := sender.PollEvent();
      while event.Some?
        invariant failure.None? && Valid() && sender.request.None? && old(line) == line && !over
        invariant event.Some? ==> !progress && event == old(sender.event) && sender.event.None? && sender.outgoing == []
        invariant event == Some(S.FileComplete) ==> sender.state.ReadyForFile?
        invariant event.None? ==> sender.event.None? && (progress <==> old(sender.event).Some?)
        invariant event.None? && progress ==> old(sender.event) == Some(S.FileComplete)
        invariant event.None? && !progress ==> sender.Model() == old(sender.Model())
        invariant index == old(index) + if progress then 1 else 0
        invariant event.Some? ==> State() == old(State()).(s := S.PollEvent(old(sender.Model())).0)
        invariant event.None? ==> (State(), false, None) == Reacted(files, old(State()))
        decreases event.Some?
      {
        progress := true;
        match event.value {
          case FileComplete =>
            failure := AdvanceFile();
            if failure.Some? {
              return;
            }
          case SessionComplete =>
            over := true;
            return;
        }
        event := sender.PollEvent();
      }
    }

    /** One lap of the flushing loop. */
    method Lap() returns (progress: bool, over: bool, failure: Option<Failure>)
      requires Valid()
      modifies Repr
      ensures old(line) <= line
      ensures failure.Some? ==> failure.value.SourceTooShort? || !Misuse(failure.value.error)
      ensures failure.None? ==> Valid() && (over <==> old(sender.event) == Some(S.SessionComplete))
      ensures failure.None? ==> index == old(index) + if old(sender.event) == Some(S.FileComplete) then 1 else 0
      ensures failure.None? && !over ==> sender.request.None? && sender.event.None?
      ensures failure.None? && old(sender.event).None? ==> sender.outgoing == []
      ensures failure.None? && !over ==>
        (progress <==> old(sender.outgoing) != [] || old(sender.request).Some? || old(sender.event).Some?)
      ensures S.Valid(old(sender.Model())) && (State(), over, failure) == Lapped(files, old(State()))
    {
      hide S.MessageBytes, Orderly, S.Valid, S.FitsOutgoing, Answered, Reacted;
      progress := WriteOutgoing();
      OutgoingEmpty();
      var answered;
      answered, failure := AnswerRequests();
      if failure.Some? {
        return progress, false, failure;
      }
      var reacted;
      reacted, over, failure := HandleEvents();
      progress := progress || answered || reacted;
    }

    /** Drains, answers and reacts until nothing is left to do. It can fail for the files' sake only. A
        waiting event is acted on exactly once. */
    method FlushSender() returns (over: bool, failure: Option<Failure>)
      requires Valid()
      modifies Repr
      ensures old(line) <= line
      ensures failure.None? ==> (over <==> old(sender.event) == Some(S.SessionComplete))
      ensures failure.None? ==> index == old(index) + if old(sender.event) == Some(S.FileComplete) then 1 else 0
      ensures failure.None? ==> Valid() && (over || Flushed(sender.Model()))
      ensures failure.Some? ==> failure.value.SourceTooShort? || !Misuse(failure.value.error)
      ensures S.Valid(old(sender.Model())) && (State(), over, failure) == FlushedOwner(files, old(State()))
    {
      hide S.MessageBytes, Orderly, S.Valid, S.FitsOutgoing, Lapped, Written;
      over, failure := false, None;
      var progress;
      progress, over, failure := Lap();
      while progress && !over && failure.None?
        invariant failure.Some? ==> failure.value.SourceTooShort? || !Misuse(failure.value.error)
        invariant old(line) <= line
        invariant failure.None? ==> Valid() && (over <==> old(sender.event) == Some(S.SessionComplete))
        invariant failure.None? ==> index == old(index) + if old(sender.event) == Some(S.FileComplete) then 1 else 0
        invariant failure.None? && !over ==> sender.request.None? && sender.event.None?
        invariant failure.None? && !over && !progress ==> sender.outgoing == []
        invariant over || failure.Some? ==> (State(), over, failure) == FlushedOwner(files, old(State()))
        invariant !over && failure.None? ==>
          S.Valid(sender.Model()) && (Written(State()), false, None) == FlushedOwner(files, old(State()))
        decreases progress, sender.outgoing != []
      {
        QuietLap(files, State());
        progress, over, failure := Lap();
      }
      if failure.None? && !over {
        OutgoingEmpty();
        QuietLap(files, State());
      }
    }

    /** Output of the peer: it goes to the sender, and everything that follows from it is done. */
    method SenderConsume(data: seq<byte>) returns (over: bool, failure: Option<Failure>)
      requires Valid() && Flushed(sender.Model())
      modifies Repr
      ensures old(line) <= line
      ensures failure.None? ==> Valid() && (over || Flushed(sender.Model()))
      ensures failure.Some? ==>
        || failure.value.SourceTooShort?
        || S.FeedIncoming(old(sender.Model()), data).err == Some(failure.value.error)
        || !Misuse(failure.value.error)
      ensures S.Valid(old(sender.Model())) && (State(), over, failure) == ConsumedOwner(files, old(State()), data)
    {
      hide S.MessageBytes, ValidReader, S.FeedIncoming, S.FitsOutgoing, FlushedOwner;
      ghost var before := sender.Model();
      var consumed, err := sender.FeedIncoming(data);
      if err.Some? {
        return false, Some(Refused(err.value));
      }
      FeedKeepsOrder(before, data);
      over, failure := FlushSender();
    }

    /** The start of a transfer: what the peer sent so far, then the first file. */
    method Begin(protocol: seq<byte>) returns (over: bool, failure: Option<Failure>)
      requires Valid() && sender.Model() == S.NewSender(false) && index == 0
      modifies Repr
      ensures failure.None? ==> !over && Valid() && Flushed(sender.Model())
      ensures failure.Some? ==>
        || failure.value.SourceTooShort?
        || S.FeedIncoming(S.NewSender(false), protocol).err == Some(failure.value.error)
        || !Misuse(failure.value.error)
      ensures S.Valid(old(sender.Model())) && var (fed, _, failed) := ConsumedOwner(files, old(State()), protocol);
        if failed.Some? then (State(), over, failure) == (fed, false, failed)
        else files != [] && S.Valid(fed.s) && (State(), over, failure) == StartedOwner(files, fed)
    {
      hide S.MessageBytes, ValidReader, S.FeedIncoming, S.StartFile, S.FitsOutgoing, FlushedOwner;
      ghost var before := sender.Model();
      var consumed, err := sender.FeedIncoming(protocol);
      if err.Some? {
        return false, Some(Refused(err.value));
      }
      FeedKeepsOrder(before, protocol);
      NothingWaits(sender.Model());
      QuietLap(files, State());
      over, failure := FlushSender();
      FirstFileStarts(sender.Model(), files[0].name, files[0].size);
      err := sender.StartFile(files[0].name, files[0].size);
      if err.Some? {
        return false, Some(Refused(err.value));
      }
      over, failure := FlushSender();
    }
  }
}
