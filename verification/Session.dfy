/** End to end: a lossless session between this sender and this receiver delivers every file. */
module Session {
  import opened Bytes
  import opened Options
  import opened Headers
  import opened Subpackets
  import opened Escape
  import opened SessionSpec
  import FileInfo
  import R = ReceiverSpec
  import S = SenderSpec

  // ----- the whole system -----

  datatype Conf = Conf(s: S.Sender, r: R.Receiver, index: nat, box: Inbox, goodbyes: nat)

  /** The owner of the sender answers a request with `n` bytes of the current file. */
  function Fed(files: seq<SourceFile>, c: Conf, n: nat): (s: S.Sender)
    requires S.Valid(c.s)
    ensures S.Valid(s)
  {
    if c.s.request.None? || c.index >= |files| then c.s
    else
      var content, from := files[c.index].content, c.s.request.value.offset;
      if from + n > |content| then c.s else S.FeedFile(c.s, content[from..from + n]).0
  }

  /** What the owners do with the outcome of an exchange. */
  function React(files: seq<SourceFile>, c: Conf, x: Exchanged): (d: Conf)
    requires S.Valid(x.s) && R.Valid(x.r)
    ensures S.Valid(d.s) && R.Valid(d.r)
  {
    hide S.Valid, R.Valid, S.StartFile, S.FinishSession;
    var box := Write(NoteAll(c.box, x.events, x.r.fileName, x.r.fileSize), x.data);
    match x.senderEvent
    case None => Conf(x.s, x.r, c.index, box, c.goodbyes)
    case Some(SessionComplete) => Conf(x.s, x.r, c.index, box, c.goodbyes + 1)
    case Some(FileComplete) =>
      var next := c.index + 1;
      if next < |files| then
        Conf(S.StartFile(x.s, files[next].name, |files[next].content|).0, x.r, next, box, c.goodbyes)
      else Conf(S.FinishSession(x.s).0, x.r, next, box, c.goodbyes)
  }

  function Step(files: seq<SourceFile>, c: Conf, n: nat): (d: Conf)
    requires S.Valid(c.s) && R.Valid(c.r)
    ensures S.Valid(d.s) && R.Valid(d.r)
  {
    hide S.Valid, R.Valid;
    React(files, c, Exchange(Fed(files, c, n), c.r))
  }

  /** No call of the step returned an error. */
  ghost predicate Clean(files: seq<SourceFile>, c: Conf, n: nat)
    requires S.Valid(c.s) && R.Valid(c.r)
  {
    hide S.Valid, R.Valid;
    var x := Exchange(Fed(files, c, n), c.r);
    && x.receiverErr.None? && x.senderErr.None?
    && (x.senderEvent == Some(S.FileComplete) ==>
      if c.index + 1 < |files|
      then S.StartFile(x.s, files[c.index + 1].name, |files[c.index + 1].content|).1.None?
      else S.FinishSession(x.s).1.None?)
  }

  // ----- the invariant, phase by phase -----

  function Wholes(files: seq<SourceFile>): (w: seq<Delivered>)
    ensures |w| == |files|
  {
    seq(|files|, i requires 0 <= i < |files| => Whole(files[i]))
  }

  ghost predicate Calm(s: S.Sender, r: R.Receiver) {
    && S.Valid(s) && R.Valid(r)
    && s.reader == IDLE && r.reader == IDLE
    && s.event.None? && r.events == [] && r.pendingErr.None? && !r.HasFileData()
  }

  ghost predicate Current(s: S.Sender, f: SourceFile) {
    && s.fileName == f.name && s.fileSize == |f.content| && Legal(f)
    && s.hasFile && !s.finishRequested
  }

  ghost predicate Receiving(r: R.Receiver, s: S.Sender) {
    if s.frameNeedsHeader then r.state.FileBegin? || r.state.WaitingSubpacket?
    else r.state.ReadingSubpacket? && AtStart(r.sub) && r.sub.encoding == ZBIN32
  }

  ghost predicate Linked(files: seq<SourceFile>, c: Conf) {
    && (forall i :: 0 <= i < |files| ==> Legal(files[i]))
    && Calm(c.s, c.r)
    && c.index <= |files|
    && (forall i :: 0 <= i < c.index ==> files[i].content != [])
    && c.box.files == Wholes(files[..c.index])
    && (c.box.sessions == if c.s.state.Done? then 1 else 0)
    && (c.goodbyes == if c.s.state.Done? then 1 else 0)
    && (c.r.answer.None? || c.s.state.WaitReceiverInit?)
    && if c.index == |files| then
         || (c.s.state.WaitFinish? && c.s.outgoing == S.Whole(S.Zfin()) && c.r.state.FileBegin?)
         || c.s.state.Done?
       else
         var f := files[c.index];
         && Current(c.s, f)
         && match c.s.state
            case WaitReceiverInit =>
              c.s.outgoing == S.Whole(S.Zrqinit()) && c.r.state.SessionBegin?
            case WaitFilePos =>
              && c.s.outgoing == S.Whole(S.File(f.name, |f.content|))
              && (c.r.state.SessionBegin? || c.r.state.FileBegin?)
            case NeedFileData =>
              var at := c.s.request.value.offset;
              && c.s.outgoing.Empty?
              && c.r.count == at && Receiving(c.r, c.s)
              && c.box.open == Some(Delivered(f.name, |f.content|, f.content[..at]))
            case WaitFileDone =>
              && f.content != [] && c.s.outgoing == S.Whole(S.Eof(|f.content|))
              && c.r.state.WaitingSubpacket? && c.r.count == |f.content|
              && c.box.open == Some(Whole(f))
            case _ => false
  }

  // ----- exchanges -----

  /** A bare header that the receiver answers with `a`. */
  lemma ExchangeAnswered(s: S.Sender, r: R.Receiver, h: Header, a: Header)
    requires Calm(s, r) && s.outgoing.Whole? && S.MessageBytes(s.outgoing.message) == Encode(h)
    requires s.request.None? && !s.state.Done?
    requires !r.Reading() && KnownEncoding(h.encoding) && h.frame <= ZSTDERR
    requires var t := R.HandleHeader(r, h); t.answer == Some(a) && !t.HasFileData()
    requires a.encoding == ZHEX && a.frame <= ZSTDERR && S.HandleHeader(S.Drained(s), a).1.None?
    ensures var t, u := R.HandleHeader(r, h), S.HandleHeader(S.Drained(s), a).0;
      Exchange(s, r) == Exchanged(u.(event := None), t.(events := [], answer := None), t.events, [], u.event, None, None)
  {
    hide Encode, S.MessageBytes, R.HandleHeader, S.HandleHeader, R.FeedIncoming, S.FeedIncoming, ValidSub, ValidReader;
    ReceiverAnswers(r, h);
    SenderTakes(S.Drained(s), a);
  }

  /** The receiver's answer to a file announcement. */
  lemma ExchangeFile(s: S.Sender, r: R.Receiver)
    requires Calm(s, r) && s.outgoing.Whole? && s.outgoing.message.File? && s.state.WaitFilePos?
    requires var m := s.outgoing.message;
      && m.name != [] && 0 !in m.name && m.size <= MAX_COUNT
      && |FileInfo.Encode(m.name, m.size)| <= MAX_SUBPACKET
    requires r.answer.None? && (r.state.SessionBegin? || r.state.FileBegin?)
    ensures var x, m, u := Exchange(s, r), s.outgoing.message, S.OnZrpos(S.Drained(s), 0);
      && x.s == u.(event := None) && x.senderEvent == u.event
      && R.Valid(x.r) && x.r.reader == IDLE && x.r.pendingErr.None? && x.r.events == []
      && x.r.state.FileBegin? && x.r.count == 0 && x.r.answer.None? && !x.r.HasFileData()
      && x.r.fileName == m.name && x.r.fileSize == m.size
      && x.events == [R.FileStart] && x.data == []
      && x.receiverErr.None? && x.senderErr.None?
  {
    hide Encode, Subpacket, R.FeedLoop, R.FeedIncoming, S.FeedIncoming, Checksum, ValidReader, S.HandleHeader,
         S.OnZrpos, FileInfo.ParseSize, FileInfo.Before, FileInfo.Encode;
    var m := s.outgoing.message;
    var h := Plain(ZBIN32, ZFILE);
    var info := FileInfo.Encode(m.name, m.size);
    var reading := R.HandleHeader(r, h);
    var passed := Passed(reading, info, ZCRCW);
    S.SubpacketNotEmpty(ZBIN32, info, ZCRCW);
    FileInfo.ParseUndoesEncode(m.name, m.size);
    ReceiverReadsOn(r, h, Subpacket(ZBIN32, info, ZCRCW));
    ReceiverTakesMetadata(reading, info, ZCRCW);
    var a := WithCount(ZHEX, ZRPOS, 0);
    SenderHandlesZrpos(S.Drained(s), a);
    SenderTakes(S.Drained(s), a);
  }

  lemma SenderHandlesZrpos(s: S.Sender, h: Header)
    requires S.Valid(s) && s.request.None? && (h.frame == ZRPOS || h.frame == ZACK)
    ensures S.HandleHeader(s, h) == (S.OnZrpos(s, h.Count()), None)
  {
    hide S.OnZrpos, CountOf;
  }

  /** The chunk on the line and the receiver's position agree. */
  ghost predicate Ready(r: R.Receiver, m: S.Message) {
    && m.Chunk? && S.ValidMessage(m)
    && (if m.at.Some? then m.at.value == r.count && (r.state.FileBegin? || r.state.WaitingSubpacket?)
        else r.state.ReadingSubpacket? && AtStart(r.sub) && r.sub.encoding == ZBIN32)
    && r.count + |m.data| <= MAX_COUNT
    && r.answer.None?
  }

  /** The receiver holds the chunk's data, ready to be drained. */
  lemma ReceiverTakesChunk(r: R.Receiver, m: S.Message)
    requires Attentive(r) && r.events == [] && Ready(r, m)
    ensures var f := R.FeedIncoming(r, S.MessageBytes(m)); var t := f.receiver;
      && f.err.None? && R.Valid(t) && t.HasFileData() && t.reader == IDLE && t.pendingErr.None?
      && t.events == [] && t.answer.None? && t.count == r.count
      && t.sub.buf == m.data && t.sub.kind == m.kind && t.sub.encoding == ZBIN32
  {
    hide Encode, Subpacket, R.FeedLoop, R.FeedIncoming, Checksum, ValidReader, R.HandleHeader;
    S.SubpacketNotEmpty(ZBIN32, m.data, m.kind);
    if m.at.Some? {
      var h := WithCount(ZBIN32, ZDATA, m.at.value);
      HandlesZdata(r, h);
      ReceiverReadsOn(r, h, Subpacket(ZBIN32, m.data, m.kind));
      ReceiverTakesData(R.HandleHeader(r, h), m.data, m.kind);
    } else {
      assert S.MessageBytes(m) == Subpacket(ZBIN32, m.data, m.kind);
      FeedWithoutError(r, S.MessageBytes(m));
      ReceiverTakesData(r, m.data, m.kind);
    }
  }

  lemma HandlesZdata(r: R.Receiver, h: Header)
    requires R.Valid(r) && h.frame == ZDATA && h.Count() == r.count && (r.state.FileBegin? || r.state.WaitingSubpacket?)
    ensures var t := R.HandleHeader(r, h);
      && R.Valid(t) && t == r.(state := R.ReadingSubpacket, sub := Begin(r.sub, h.encoding), history := t.history)
  {
    hide CountOf, ValidReader;
  }

  lemma FeedWithoutError(r: R.Receiver, input: seq<byte>)
    requires R.Valid(r) && r.pendingErr.None?
    ensures R.FeedIncoming(r, input) == R.FeedLoop(r, input)
  {
    hide R.FeedLoop;
  }

  /** The state after the chunk was taken and drained; a closing chunk is acknowledged. */
  ghost predicate Drains(r: R.Receiver, m: S.Message, t: R.Receiver)
    requires m.Chunk?
  {
    && R.Valid(t) && t.reader == IDLE && t.pendingErr.None? && t.events == [] && !t.HasFileData()
    && t.count == r.count + |m.data| <= MAX_COUNT
    && (m.kind == ZCRCW ==> t.state.WaitingSubpacket? && t.answer == Some(WithCount(ZHEX, ZACK, t.count)))
    && (m.kind == ZCRCG ==> t.state.ReadingSubpacket? && AtStart(t.sub) && t.sub.encoding == ZBIN32 && t.answer.None?)
  }

  lemma ReceiverDrainsChunk(r: R.Receiver, m: S.Message)
    requires Attentive(r) && r.events == [] && Ready(r, m)
    ensures var f := R.FeedIncoming(r, S.MessageBytes(m));
      && f.err.None? && f.receiver.events == []
      && R.DrainFile(f.receiver).1 == m.data && Drains(r, m, R.DrainFile(f.receiver).0)
  {
    hide Encode, R.FeedIncoming, Checksum, ValidReader, S.MessageBytes;
    ReceiverTakesChunk(r, m);
  }

  /** A chunk reaches the receiver, is drained, and is acknowledged if it closes its frame. */
  lemma ExchangeChunk(s: S.Sender, r: R.Receiver)
    requires Calm(s, r) && !s.state.Done? && s.outgoing.Whole? && Ready(r, s.outgoing.message)
    requires s.outgoing.message.kind == ZCRCW <==> s.request.None?
    ensures var x, m := Exchange(s, r), s.outgoing.message;
      && R.Valid(x.r) && x.r.reader == IDLE && x.r.pendingErr.None? && x.r.events == []
      && x.r.count == r.count + |m.data| && x.r.answer.None? && !x.r.HasFileData()
      && x.events == [] && x.data == m.data
      && x.receiverErr.None? && x.senderErr.None?
      && (m.kind == ZCRCW ==>
        && x.r.state.WaitingSubpacket?
        && x.s == S.OnZrpos(S.Drained(s), r.count + |m.data|).(event := None)
        && x.senderEvent == S.OnZrpos(S.Drained(s), r.count + |m.data|).event)
      && (m.kind == ZCRCG ==>
        && x.r.state.ReadingSubpacket? && AtStart(x.r.sub) && x.r.sub.encoding == ZBIN32
        && x.s == S.Drained(s) && x.senderEvent.None?)
  {
    hide Encode, Subpacket, R.FeedIncoming, R.DrainFile, S.FeedIncoming, Checksum, ValidReader, S.HandleHeader,
         S.OnZrpos, S.MessageBytes;
    var m := s.outgoing.message;
    ReceiverDrainsChunk(r, m);
    var t := R.FeedIncoming(r, S.MessageBytes(m)).receiver;
    assert t.(events := []) == t;
    if m.kind == ZCRCW {
      var a := WithCount(ZHEX, ZACK, r.count + |m.data|);
      SenderHandlesZrpos(S.Drained(s), a);
      SenderTakes(S.Drained(s), a);
    } else {
      SenderTakesNothing(S.Drained(s));
    }
  }

  // ----- each phase leads to the next -----

  /** What is left to do: files, then phases of the current file, then bytes of the current phase. */
  function Rank(state: S.State): nat {
    match state
    case WaitReceiverInit => 5
    case WaitFilePos => 4
    case NeedFileData => 3
    case WaitFileDone => 2
    case WaitFinish => 1
    case _ => 0
  }

  function Left(s: S.Sender): nat {
    if s.request.Some? && 0 <= s.request.value.offset <= s.fileSize then s.fileSize - s.request.value.offset else 0
  }

  ghost predicate Progress(files: seq<SourceFile>, c: Conf, d: Conf)
    requires c.index <= |files| && d.index <= |files|
  {
    || c.index < d.index
    || (c.index == d.index && Rank(d.s.state) < Rank(c.s.state))
    || (c.index == d.index && d.s.state == c.s.state && Left(d.s) < Left(c.s))
  }

  ghost predicate Goes(files: seq<SourceFile>, c: Conf, n: nat)
    requires S.Valid(c.s) && R.Valid(c.r)
  {
    hide S.Valid, R.Valid;
    var d := Step(files, c, n);
    c.index <= |files| && Linked(files, d) && Clean(files, c, n) && Progress(files, c, d)
  }

  lemma InitStep(files: seq<SourceFile>, c: Conf, n: nat)
    requires Linked(files, c) && c.s.state.WaitReceiverInit?
    ensures Goes(files, c, n)
  {
    hide Encode, R.FeedIncoming, S.FeedIncoming, ValidReader, ValidSub, Exchange, S.MessageBytes;
    var h := Plain(ZHEX, ZRQINIT);
    AnnouncementFits(files[c.index]);
    ZrqinitBytes();
    ExchangeAnswered(c.s, c.r, h, R.Zrinit());
  }

  lemma ZrqinitBytes()
    ensures S.MessageBytes(S.Zrqinit()) == Encode(Plain(ZHEX, ZRQINIT))
    ensures S.MessageBytes(S.Zfin()) == Encode(Plain(ZHEX, ZFIN))
  {}

  lemma AnnouncementFits(f: SourceFile)
    requires Legal(f)
    ensures S.FitsOutgoing(f.name, |f.content|)
  {
    hide S.MessageBytes;
    S.MessagesFit(S.File(f.name, |f.content|));
  }

  /** The announcement of the current file, which is empty, is on the line. */
  predicate AnnouncesEmpty(files: seq<SourceFile>, c: Conf) {
    c.s.state.WaitFilePos? && c.index < |files| && files[c.index].content == []
  }

  lemma AnnounceStep(files: seq<SourceFile>, c: Conf, n: nat)
    requires Linked(files, c) && c.s.state.WaitFilePos? && !AnnouncesEmpty(files, c)
    ensures Goes(files, c, n)
  {
    hide Encode, R.FeedIncoming, S.FeedIncoming, ValidReader, ValidSub, Exchange, S.MessageBytes;
    var f := files[c.index];
    ExchangeFile(c.s, c.r);
    NoteOne(c.box, R.FileStart, f.name, |f.content|);
    assert f.content[..0] == [];
  }

  /** What the sender becomes when it is fed the next `n` bytes: the chunk is on the line, and either
      its frame is closed or the next request is pending. */
  lemma FedChunk(files: seq<SourceFile>, c: Conf, n: nat)
    requires Linked(files, c) && c.s.state.NeedFileData? && 1 <= n <= c.s.request.value.len
    ensures var s, q, content := Fed(files, c, n), c.s.request.value, files[c.index].content;
      && S.FeedFile(c.s, content[q.offset..q.offset + n]) == (s, None)
      && Calm(s, c.r) && Current(s, files[c.index])
      && s.outgoing.Whole? && s.outgoing.message.Chunk?
      && s.outgoing.message.data == content[q.offset..q.offset + n]
      && (s.outgoing.message.at == if c.s.frameNeedsHeader then Some(q.offset) else None)
      && !s.frameNeedsHeader
      && if s.outgoing.message.kind == ZCRCW then s.request.None? && s.state.WaitFileAck?
         else s.outgoing.message.kind == ZCRCG && s.state.NeedFileData? && s.request.value.offset == q.offset + n
  {
    hide Encode, ValidReader, ValidSub, S.MessageBytes;
  }

  lemma LinkedFeeds(files: seq<SourceFile>, c: Conf, n: nat)
    requires Linked(files, c) && c.s.state.NeedFileData? && 1 <= n <= c.s.request.value.len
    ensures var q, content := c.s.request.value, files[c.index].content;
      S.FeedFile(c.s, content[q.offset..q.offset + n]) == (Fed(files, c, n), None)
  {
    hide Linked, Fed, S.FeedFile;
    FedChunk(files, c, n);
  }

  /** What the acknowledgement makes the sender do: ask for the rest, or announce the end. */
  lemma AskedFor(s: S.Sender, f: SourceFile, offset: nat)
    requires S.Valid(s) && Current(s, f) && s.state.WaitFileAck? && s.outgoing.Empty? && offset <= |f.content|
    ensures var t := S.OnZrpos(s, offset);
      && Current(t, f) && t.reader == s.reader && t.event == s.event
      && if offset < |f.content| then
           t.state.NeedFileData? && t.request.value.offset == offset && t.frameNeedsHeader && t.outgoing.Empty?
         else t.state.WaitFileDone? && t.outgoing == S.Whole(S.Eof(|f.content|))
  {
    hide ValidReader, S.MessageBytes;
  }

  /** Both sides after `at` bytes of the file went across. */
  ghost predicate InStep(s: S.Sender, r: R.Receiver, f: SourceFile, at: nat) {
    && Calm(s, r) && Current(s, f) && r.answer.None? && r.count == at <= |f.content|
    && if s.state.NeedFileData? then s.request.value.offset == at && s.outgoing.Empty? && Receiving(r, s)
       else s.state.WaitFileDone? && at == |f.content| && s.outgoing == S.Whole(S.Eof(at)) && r.state.WaitingSubpacket?
  }

  lemma ChunkExchange(files: seq<SourceFile>, c: Conf, n: nat)
    requires Linked(files, c) && c.s.state.NeedFileData? && 1 <= n <= c.s.request.value.len
    ensures var x, f, at := Exchange(Fed(files, c, n), c.r), files[c.index], c.s.request.value.offset;
      && x.events == [] && at + n <= |f.content| && x.data == f.content[at..at + n]
      && x.senderEvent.None? && x.receiverErr.None? && x.senderErr.None?
      && InStep(x.s, x.r, f, at + n)
  {
    hide Encode, ValidReader, ValidSub, Exchange, S.MessageBytes, Fed, S.FeedFile, S.OnZrpos, Legal;
    var f, at := files[c.index], c.s.request.value.offset;
    var s := Fed(files, c, n);
    FedChunk(files, c, n);
    ExchangeChunk(s, c.r);
    if s.outgoing.message.kind == ZCRCW {
      AskedFor(S.Drained(s), f, at + n);
    }
  }

  lemma ChunkStep(files: seq<SourceFile>, c: Conf, n: nat)
    requires Linked(files, c) && c.s.state.NeedFileData? && 1 <= n <= c.s.request.value.len
    ensures Goes(files, c, n)
  {
    hide Encode, ValidReader, ValidSub, Exchange, S.MessageBytes, Fed, Calm, Receiving, Legal;
    LinkedRequest(files, c);
    var f, at := files[c.index], c.s.request.value.offset;
    ChunkExchange(files, c, n);
    assert f.content[..at] + f.content[at..at + n] == f.content[..at + n];
    assert f.content[..|f.content|] == f.content;
  }

  /** The receiver completes the file and is ready for the next one, and so is the sender. */
  lemma EofExchange(files: seq<SourceFile>, c: Conf, n: nat)
    requires Linked(files, c) && c.s.state.WaitFileDone?
    ensures Fed(files, c, n) == c.s
    ensures var x := Exchange(c.s, c.r);
      && x.s == S.Drained(c.s).(hasFile := false, state := S.ReadyForFile, maxPerAck := x.s.maxPerAck)
      && Calm(x.s, x.r) && x.r.state.FileBegin? && x.r.answer.None? && x.r.fileName == c.r.fileName
      && x.events == [R.FileComplete] && x.data == []
      && x.senderEvent == Some(S.FileComplete) && x.receiverErr.None? && x.senderErr.None?
  {
    hide Encode, R.FeedIncoming, S.FeedIncoming, ValidReader, ValidSub, Exchange, S.MessageBytes, Legal, Wholes;
    var size := |files[c.index].content|;
    EofBytes(size);
    ExchangeAnswered(c.s, c.r, WithCount(ZBIN32, ZEOF, size), R.Zrinit());
    assert c.r.events + [R.FileComplete] == [R.FileComplete];
  }

  lemma EofStep(files: seq<SourceFile>, c: Conf, n: nat)
    requires Linked(files, c) && c.s.state.WaitFileDone?
    ensures Goes(files, c, n)
  {
    hide Exchange, Fed, ValidReader, ValidSub, S.MessageBytes, FileInfo.Encode;
    var f := files[c.index];
    EofExchange(files, c, n);
    var x := Exchange(c.s, c.r);
    NoteOne(c.box, R.FileComplete, x.r.fileName, x.r.fileSize);
    assert Wholes(files[..c.index + 1]) == Wholes(files[..c.index]) + [Whole(f)];
    if c.index + 1 < |files| {
      AnnouncementFits(files[c.index + 1]);
    }
  }

  lemma EofBytes(size: int)
    requires 0 <= size <= MAX_COUNT
    ensures S.MessageBytes(S.Eof(size)) == Encode(WithCount(ZBIN32, ZEOF, size))
  {}

  lemma FinStep(files: seq<SourceFile>, c: Conf, n: nat)
    requires Linked(files, c) && c.s.state.WaitFinish?
    ensures Goes(files, c, n)
  {
    hide Encode, R.FeedIncoming, S.FeedIncoming, ValidReader, ValidSub, Exchange, S.MessageBytes;
    ZrqinitBytes();
    ExchangeAnswered(c.s, c.r, Plain(ZHEX, ZFIN), Plain(ZHEX, ZFIN));
    assert c.r.events + [R.SessionComplete] == [R.SessionComplete];
    NoteOne(c.box, R.SessionComplete, c.r.fileName, c.r.fileSize);
  }

  lemma LinkedIsValid(files: seq<SourceFile>, c: Conf)
    requires Linked(files, c)
    ensures S.Valid(c.s) && R.Valid(c.r)
  {}

  /** A pending request is for a part of the current file that is not empty. */
  lemma LinkedRequest(files: seq<SourceFile>, c: Conf)
    requires Linked(files, c)
    ensures c.s.state.NeedFileData? <==> c.s.request.Some?
    ensures c.s.request.Some? ==>
      var q := c.s.request.value;
      c.index < |files| && 0 <= q.offset && 1 <= q.len && q.offset + q.len <= |files[c.index].content|
  {
    hide ValidReader, ValidSub, Legal, S.MessageBytes;
  }

  /** Every state that is linked, not done and not about to announce an empty file leads to another one, without
      an error and closer to the end, whatever part of a request is fed. */
  lemma LinkedGoes(files: seq<SourceFile>, c: Conf, n: nat)
    requires Linked(files, c) && !c.s.state.Done? && !AnnouncesEmpty(files, c)
    requires c.s.request.Some? ==> 1 <= n <= c.s.request.value.len
    ensures Goes(files, c, n)
  {
    hide Goes, Calm, Legal, S.FeedFile, S.MessageBytes;
    LinkedRequest(files, c);
    if c.s.state.WaitReceiverInit? {
      InitStep(files, c, n);
    } else if c.s.state.WaitFilePos? {
      AnnounceStep(files, c, n);
    } else if c.s.state.NeedFileData? {
      ChunkStep(files, c, n);
    } else if c.s.state.WaitFileDone? {
      EofStep(files, c, n);
    } else {
      FinStep(files, c, n);
    }
  }

  function Start(files: seq<SourceFile>): (c: Conf)
    requires files != []
  {
    Conf(S.StartFile(S.NewSender(true), files[0].name, |files[0].content|).0, R.NewReceiver(), 0, Inbox(None, [], 0), 0)
  }

  lemma LinkedAtStart(files: seq<SourceFile>)
    requires files != [] && forall i :: 0 <= i < |files| ==> Legal(files[i])
    ensures S.StartFile(S.NewSender(true), files[0].name, |files[0].content|).1.None?
    ensures Linked(files, Start(files))
  {
    hide S.MessageBytes;
    assert files[..0] == [];
  }

  lemma LinkedAtEnd(files: seq<SourceFile>, c: Conf)
    requires Linked(files, c) && c.s.state.Done?
    ensures c.box.files == Wholes(files) && c.box.sessions == 1 && c.goodbyes == 1
  {
    hide Calm, Legal;
    assert files[..|files|] == files;
  }
}
