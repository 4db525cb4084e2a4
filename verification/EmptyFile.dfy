/** Which sessions end: those whose files all have content. A file without content is announced but never
    completed: the receiver ignores the end of a file whose data it has not begun to receive. */
module EmptyFile {
  import opened Options
  import opened Headers
  import opened Subpackets
  import opened SessionSpec
  import opened Session
  import R = ReceiverSpec
  import S = SenderSpec

  // ----- the empty file -----

  /** The end of the empty file is on the line, or nothing any more. */
  ghost predicate EndsEmpty(c: Conf) {
    && Calm(c.s, c.r) && c.s.state.WaitFileDone? && c.r.state.FileBegin? && c.r.answer.None?
    && (c.s.outgoing.Empty? || c.s.outgoing == S.Whole(S.Eof(0)))
  }

  lemma ReceiverIgnores(r: R.Receiver, h: Header)
    requires Attentive(r) && !r.Reading() && KnownEncoding(h.encoding) && h.encoding != ZHEX && h.frame <= ZSTDERR
    requires R.HandleHeader(r, h) == r
    ensures R.FeedIncoming(r, Encode(h)) == R.FeedResult(r, |Encode(h)|, None)
  {
    hide Read, DecodeHeader, Body, R.HandleHeader;
    ReadCore(IDLE, h, []);
    DecodeBody(h);
    assert r.(reader := IDLE) == r;
    assert Encode(h) == Core(h) + [] && Core(h) + [] == Core(h);
  }

  lemma ReceiverTakesNothing(r: R.Receiver)
    requires Attentive(r) && !r.Reading()
    ensures R.FeedIncoming(r, []) == R.FeedResult(r, 0, None)
  {
    assert r.(reader := IDLE) == r;
  }

  /** First exchange: the receiver asks for the data, the sender answers with the end of the file. */
  lemma AnnouncementLeadsToEnd(files: seq<SourceFile>, c: Conf, n: nat)
    requires Linked(files, c) && AnnouncesEmpty(files, c)
    ensures var d := Step(files, c, n);
      EndsEmpty(d) && d.index == c.index && d.box.files == c.box.files
  {
    hide Encode, R.FeedIncoming, S.FeedIncoming, ValidReader, ValidSub, Exchange, S.MessageBytes;
    ExchangeFile(c.s, c.r);
    NoteOne(c.box, R.FileStart, files[c.index].name, 0);
  }

  /** From then on nothing is answered: one more exchange empties the line, and after it nothing changes. */
  lemma EndIsIgnored(files: seq<SourceFile>, c: Conf, n: nat)
    requires EndsEmpty(c)
    ensures Step(files, c, n) == c.(s := S.Drained(c.s))
  {
    hide Encode, R.FeedIncoming, S.FeedIncoming, ValidReader, ValidSub, S.MessageBytes, Read;
    if c.s.outgoing.Whole? {
      EofBytes(0);
      ReceiverIgnores(c.r, WithCount(ZBIN32, ZEOF, 0));
    } else {
      ReceiverTakesNothing(c.r);
    }
    SenderTakesNothing(S.Drained(c.s));
    assert c.r.(events := []) == c.r && c.r.(answer := None) == c.r;
    var x := Exchange(c.s, c.r);
    assert x == Exchanged(S.Drained(c.s), c.r, [], [], None, None, None);
  }

  // ----- whole sessions -----

  /** The loop of a session: it steps until the sender is done or the feeds run out. */
  function Steps(files: seq<SourceFile>, c: Conf, feeds: seq<nat>): (d: Conf)
    requires S.Valid(c.s) && R.Valid(c.r)
    ensures S.Valid(d.s) && R.Valid(d.r)
    decreases |feeds|
  {
    hide Step;
    if feeds == [] || c.s.state.Done? then c else Steps(files, Step(files, c, feeds[0]), feeds[1..])
  }

  /** Every request of the run is answered with a part of it that is not empty. */
  predicate Grants(files: seq<SourceFile>, c: Conf, feeds: seq<nat>)
    requires S.Valid(c.s) && R.Valid(c.r)
    decreases |feeds|
  {
    hide Step;
    feeds == [] || c.s.state.Done?
    || ((c.s.request.Some? ==> 1 <= feeds[0] <= c.s.request.value.len) && Grants(files, Step(files, c, feeds[0]), feeds[1..]))
  }

  /** Answering each request with a single byte is one way to grant it. */
  lemma {:induction false} SingleBytesAreGranted(files: seq<SourceFile>, c: Conf, feeds: seq<nat>)
    requires S.Valid(c.s) && R.Valid(c.r) && forall i :: 0 <= i < |feeds| ==> feeds[i] == 1
    ensures Grants(files, c, feeds)
    decreases |feeds|
  {
    hide Step, ValidReader, ValidSub, S.MessageBytes;
    if feeds != [] && !c.s.state.Done? {
      SingleBytesAreGranted(files, Step(files, c, feeds[0]), feeds[1..]);
    }
  }

  lemma {:induction false} StaysAtEnd(files: seq<SourceFile>, c: Conf, feeds: seq<nat>)
    requires EndsEmpty(c)
    ensures var d := Steps(files, c, feeds); EndsEmpty(d) && d.index == c.index && d.box.files == c.box.files
    decreases |feeds|
  {
    hide Step, ValidReader, ValidSub, S.MessageBytes;
    if feeds != [] {
      EndIsIgnored(files, c, feeds[0]);
      StaysAtEnd(files, c.(s := S.Drained(c.s)), feeds[1..]);
    }
  }

  /** The first file without content. */
  function FirstEmpty(files: seq<SourceFile>): (k: nat)
    ensures k <= |files| && (k < |files| ==> files[k].content == [])
    ensures forall i :: 0 <= i < k ==> files[i].content != []
  {
    if files == [] then 0
    else if files[0].content == [] then 0
    else
      assert forall i :: 0 < i < |files| ==> files[i] == files[1..][i - 1];
      1 + FirstEmpty(files[1..])
  }

  /** An upper bound for the steps that the files from `from` on take. */
  function Load(files: seq<SourceFile>, from: nat): nat
    requires from <= |files|
    decreases |files| - from
  {
    if from == |files| then 0 else |files[from].content| + 6 + Load(files, from + 1)
  }

  /** An upper bound for the steps still to take. */
  function Work(files: seq<SourceFile>, c: Conf): nat
    requires c.index <= |files| && S.Valid(c.s)
  {
    hide ValidReader, S.MessageBytes;
    var later := if c.index < |files| then Load(files, c.index + 1) else 0;
    Rank(c.s.state) + later +
      (if c.s.state.WaitReceiverInit? || c.s.state.WaitFilePos? then c.s.fileSize else Left(c.s))
  }

  lemma WorkShrinks(files: seq<SourceFile>, c: Conf, d: Conf)
    requires Linked(files, c) && Linked(files, d) && Progress(files, c, d)
    ensures Work(files, d) < Work(files, c)
  {
    hide Calm, Legal, S.MessageBytes;
    LinkedRequest(files, c);
    LinkedRequest(files, d);
    if c.index < d.index {
      LoadShrinks(files, c.index + 1, d.index);
    }
  }

  lemma {:induction false} LoadShrinks(files: seq<SourceFile>, from: nat, to: nat)
    requires from <= to <= |files|
    ensures Load(files, to) <= Load(files, from)
    decreases |files| - from
  {
    if from < to {
      LoadShrinks(files, from + 1, to);
    }
  }

  /** Where a session is that has run long enough: done, or waiting for ever behind its first empty file. */
  ghost predicate AtRest(files: seq<SourceFile>, c: Conf) {
    var k := FirstEmpty(files);
    && c.index == k && c.box.files == Wholes(files[..k])
    && if k == |files| then c.s.state.Done? && c.box.sessions == 1 && c.goodbyes == 1 else EndsEmpty(c)
  }

  lemma LinkedBeforeEmpty(files: seq<SourceFile>, c: Conf)
    requires Linked(files, c)
    ensures c.index <= FirstEmpty(files) && (AnnouncesEmpty(files, c) ==> c.index == FirstEmpty(files))
    ensures c.s.state.Done? ==> AtRest(files, c)
  {
    hide Calm, Legal, S.MessageBytes;
  }

  lemma {:induction false} RunsToRest(files: seq<SourceFile>, c: Conf, feeds: seq<nat>)
    requires Linked(files, c) && Grants(files, c, feeds)
    ensures c.index <= |files|
    ensures var d := Steps(files, c, feeds);
      && (Linked(files, d) || AtRest(files, d))
      && (|feeds| >= Work(files, c) ==> AtRest(files, d))
    decreases |feeds|
  {
    hide Step, Calm, Legal, ValidReader, ValidSub, S.MessageBytes, EndsEmpty;
    LinkedBeforeEmpty(files, c);
    LinkedIsValid(files, c);
    if feeds != [] && !c.s.state.Done? {
      var d := Step(files, c, feeds[0]);
      if AnnouncesEmpty(files, c) {
        AnnouncementLeadsToEnd(files, c, feeds[0]);
        StaysAtEnd(files, d, feeds[1..]);
      } else {
        LinkedGoes(files, c, feeds[0]);
        WorkShrinks(files, c, d);
        RunsToRest(files, d, feeds[1..]);
      }
    }
  }

  /** A session of files that can be announced, its requests granted in any way: once it has run long enough,
      exactly the files before the first empty one have been delivered, and it is done exactly if there is no
      empty one. If there is one, it is never done, however short or long it runs. */
  lemma DoneIffNoEmptyFile(files: seq<SourceFile>, feeds: seq<nat>)
    requires files != [] && forall i :: 0 <= i < |files| ==> Legal(files[i])
    requires Grants(files, Start(files), feeds)
    ensures var d := Steps(files, Start(files), feeds);
      && (d.s.state.Done? ==> forall f :: f in files ==> f.content != [])
      && (|feeds| >= Work(files, Start(files)) ==>
            && d.box.files == Wholes(files[..FirstEmpty(files)])
            && (d.s.state.Done? <==> forall f :: f in files ==> f.content != []))
  {
    hide Step, Linked, Legal, Grants, Steps, ValidReader, ValidSub, S.MessageBytes, Start, Work, EndsEmpty;
    LinkedAtStart(files);
    LinkedIsValid(files, Start(files));
    RunsToRest(files, Start(files), feeds);
    var d, k := Steps(files, Start(files), feeds), FirstEmpty(files);
    if Linked(files, d) {
      LinkedBeforeEmpty(files, d);
    }
    EndsAreNotDone(d);
    if k < |files| {
      assert files[k] in files;
    }
  }

  lemma EndsAreNotDone(c: Conf)
    ensures EndsEmpty(c) ==> !c.s.state.Done?
  {}
}
