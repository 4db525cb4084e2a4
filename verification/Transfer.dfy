/** The loop that carries bytes between a sender object and a receiver object until both are done. */
module Transfer {
  import opened Bytes
  import opened Options
  import opened SessionSpec
  import opened Session
  import R = ReceiverSpec
  import S = SenderSpec
  import Senders
  import Receivers

  // ----- the session on the two objects -----

  /** Every queued event, oldest first. */
  method PollAll(receiver: Receivers.Receiver, before: Inbox) returns (box: Inbox, ghost events: seq<R.Event>)
    requires receiver.Valid()
    modifies receiver`events
    ensures receiver.Valid() && receiver.Model() == old(receiver.Model()).(events := [])
    ensures events == old(receiver.events)
    ensures box == NoteAll(before, events, receiver.fileName, receiver.fileSize)
  {
    hide Receivers.Receiver.Valid;
    events, box := receiver.events, before;
    var event := receiver.PollEvent();
    ghost var rest := if events == [] then [] else events[1..];
    while event.Some?
      invariant receiver.Valid()
      invariant receiver.Model() == old(receiver.Model()).(events := rest)
      invariant event.None? ==> rest == []
      invariant NoteAll(before, events, receiver.fileName, receiver.fileSize) ==
        NoteAll(if event.Some? then Note(box, event.value, receiver.fileName, receiver.fileSize) else box,
                rest, receiver.fileName, receiver.fileSize)
      decreases |rest|, event.Some?
    {
      box := Note(box, event.value, receiver.fileName, receiver.fileSize);
      event := receiver.PollEvent();
      rest := if rest == [] then [] else rest[1..];
    }
  }

  lemma DrainKeepsFile(r: R.Receiver)
    requires R.Valid(r)
    ensures R.DrainFile(r).0.fileName == r.fileName && R.DrainFile(r).0.fileSize == r.fileSize
  {}

  /** The receiver's half of a turn: it takes the input, and hands out events, data and an answer. */
  method Deliver(receiver: Receivers.Receiver, input: seq<byte>, before: Inbox)
    returns (box: Inbox, answer: seq<byte>, err: Option<Error>, ghost events: seq<R.Event>, data: seq<byte>)
    requires receiver.Valid()
    modifies receiver.Repr
    ensures receiver.Valid()
    ensures var fed := R.FeedIncoming(old(receiver.Model()), input);
      var (drained, out) := R.DrainFile(fed.receiver.(events := []));
      && (receiver.Model(), answer) == R.DrainOutgoing(drained)
      && events == fed.receiver.events && data == out && err == fed.err
      && box == Write(NoteAll(before, events, receiver.fileName, receiver.fileSize), data)
  {
    hide R.Valid, R.FeedIncoming, R.OutgoingBytes, R.DrainFile, NoteAll, Write, Note;
    var n;
    n, err := receiver.FeedIncoming(input);
    box, events := PollAll(receiver, before);
    DrainKeepsFile(receiver.Model());
    data := receiver.DrainFile();
    box := Write(box, data);
    answer := receiver.DrainOutgoing();
  }

  /** One turn of the loop that carries bytes between the two sides. */
  method Turn(sender: Senders.Sender, receiver: Receivers.Receiver, before: Inbox)
    returns (box: Inbox, event: Option<S.Event>, err: Option<Error>, ghost x: Exchanged)
    requires sender.Valid() && receiver.Valid()
    requires {sender, sender.reader} !! receiver.Repr
    modifies sender, sender.reader, receiver.Repr
    ensures sender.Valid() && receiver.Valid()
    ensures x == Exchange(old(sender.Model()), old(receiver.Model()))
    ensures sender.Model() == x.s && receiver.Model() == x.r && event == x.senderEvent
    ensures box == Write(NoteAll(before, x.events, x.r.fileName, x.r.fileSize), x.data)
    ensures err.None? <==> x.receiverErr.None? && x.senderErr.None?
  {
    hide S.Valid, R.Valid, R.FeedIncoming, S.FeedIncoming, S.OutgoingBytes, R.OutgoingBytes, R.DrainFile, NoteAll,
         Write, Note;
    var outgoing := sender.DrainOutgoing();
    var answer, receiverErr, data;
    ghost var events;
    box, answer, receiverErr, events, data := Deliver(receiver, outgoing, before);
    var m, senderErr := sender.FeedIncoming(answer);
    event := sender.PollEvent();
    err := if receiverErr.Some? then receiverErr else senderErr;
    x := Exchanged(sender.Model(), receiver.Model(), events, data, event, receiverErr, senderErr);
  }

  /** What the sender's owner does about a finished file. */
  method Advance(sender: Senders.Sender, files: seq<SourceFile>, index: nat) returns (next: nat, err: Option<Error>)
    requires sender.Valid()
    modifies sender
    ensures sender.Valid() && next == index + 1
    ensures (sender.Model(), err) ==
      if next < |files| then S.StartFile(old(sender.Model()), files[next].name, |files[next].content|)
      else S.FinishSession(old(sender.Model()))
  {
    hide S.StartFile, S.FinishSession, Senders.Sender.Valid;
    next := index + 1;
    if next < |files| {
      err := sender.StartFile(files[next].name, |files[next].content|);
    } else {
      err := sender.FinishSession();
    }
  }

  /** A pending request is answered with some part of it that is not empty. */
  method Feed(files: seq<SourceFile>, sender: Senders.Sender, index: nat, ghost c: Conf)
    returns (err: Option<Error>, ghost n: nat)
    requires sender.Valid() && Linked(files, c) && c.index == index && c.s == sender.Model()
    modifies sender
    ensures sender.Valid() && err.None? && sender.Model() == Fed(files, c, n)
    ensures c.s.request.Some? ==> 1 <= n <= c.s.request.value.len
  {
    hide Linked, S.FeedFile, Senders.Sender.Valid;
    err, n := None, 0;
    LinkedRequest(files, c);
    if sender.request.Some? {
      var offset, len := sender.request.value.offset, sender.request.value.len;
      var size: nat :| 1 <= size <= len;
      n := size;
      LinkedFeeds(files, c, n);
      err := sender.FeedFile(files[index].content[offset..offset + size]);
    }
  }

  /** The pure round is clean and leads on. */
  lemma RoundGoes(files: seq<SourceFile>, c: Conf, n: nat)
    requires Linked(files, c) && !c.s.state.Done? && forall f :: f in files ==> Sendable(f)
    requires c.s.request.Some? ==> 1 <= n <= c.s.request.value.len
    ensures S.Valid(c.s) && R.Valid(c.r) && c.index <= |files| && Clean(files, c, n)
    ensures var d := Step(files, c, n); d.index <= |files| && Linked(files, d) && Progress(files, c, d)
  {
    hide Calm, Legal, Clean, Progress, Step, S.FeedFile, S.MessageBytes;
    LinkedIndex(files, c);
    LinkedIsValid(files, c);
    HasContent(files, c.index);
    LinkedGoes(files, c, n);
    LinkedIndex(files, Step(files, c, n));
  }

  /** One round of the loop, with what both owners do about its events. */
  method Cycle(files: seq<SourceFile>, sender: Senders.Sender, receiver: Receivers.Receiver,
               index: nat, box: Inbox, goodbyes: nat)
    returns (index': nat, box': Inbox, goodbyes': nat, err: Option<Error>, ghost n: nat)
    requires sender.Valid() && receiver.Valid() && {sender, sender.reader} !! receiver.Repr
    requires Linked(files, Conf(sender.Model(), receiver.Model(), index, box, goodbyes)) && !sender.state.Done?
    requires forall f :: f in files ==> Sendable(f)
    modifies sender, sender.reader, receiver.Repr
    ensures sender.Valid() && receiver.Valid() && err.None?
    ensures index <= |files| && index' <= |files|
    ensures var c, d := old(Conf(sender.Model(), receiver.Model(), index, box, goodbyes)),
                        Conf(sender.Model(), receiver.Model(), index', box', goodbyes');
      && S.Valid(c.s) && R.Valid(c.r) && d == Step(files, c, n)
      && Linked(files, d) && Progress(files, c, d)
  {
    hide Linked, Progress, Exchange, Fed, NoteAll, Write, S.Valid, R.Valid, S.StartFile, S.FinishSession,
         S.OutgoingBytes, R.OutgoingBytes;
    ghost var c := Conf(sender.Model(), receiver.Model(), index, box, goodbyes);
    index', goodbyes' := index, goodbyes;
    err, n := Feed(files, sender, index, c);
    RoundGoes(files, c, n);
    var event;
    ghost var x;
    box', event, err, x := Turn(sender, receiver, box);
    match event
    case Some(FileComplete) =>
      index', err := Advance(sender, files, index);
    case Some(SessionComplete) =>
      goodbyes' := goodbyes + 1;
    case None =>
  }

  /** Every file reaches the other side, byte for byte and in order, and each side sees the end of the
      session once. The owner of the sender may answer each request with any non-empty part of it. */
  method Run(files: seq<SourceFile>) returns (box: Inbox, goodbyes: nat, err: Option<Error>)
    requires files != [] && forall f :: f in files ==> Sendable(f)
    ensures err.None?
    ensures box.files == Wholes(files)
    ensures box.sessions == 1 && goodbyes == 1
  {
    hide Senders.Sender.Valid, Receivers.Receiver.Valid, Linked, Clean, Step, Sendable, S.StartFile, S.NewSender,
         R.NewReceiver, S.Valid, R.Valid;
    var sender := new Senders.Sender(true);
    var receiver := new Receivers.Receiver();
    var index: nat := 0;
    box, goodbyes := Inbox(None, [], 0), 0;
    forall i | 0 <= i < |files| ensures Legal(files[i]) {
      HasContent(files, i);
    }
    LinkedAtStart(files);
    err := sender.StartFile(files[0].name, |files[0].content|);
    ghost var c := Conf(sender.Model(), receiver.Model(), index, box, goodbyes);
    LinkedIndex(files, c);
    while !sender.state.Done?
      invariant sender.Valid() && receiver.Valid() && err.None?
      invariant {sender, sender.reader} !! receiver.Repr
      invariant c == Conf(sender.Model(), receiver.Model(), index, box, goodbyes)
      invariant Linked(files, c) && index <= |files|
      decreases |files| - c.index, Rank(c.s.state), Left(c.s)
    {
      ghost var n;
      index, box, goodbyes, err, n := Cycle(files, sender, receiver, index, box, goodbyes);
      c := Conf(sender.Model(), receiver.Model(), index, box, goodbyes);
    }
    LinkedAtEnd(files, c);
  }

  lemma HasContent(files: seq<SourceFile>, index: nat)
    requires forall f :: f in files ==> Sendable(f)
    ensures index < |files| ==> Legal(files[index]) && files[index].content != []
  {
    if index < |files| {
      assert files[index] in files;
    }
  }

  lemma LinkedIndex(files: seq<SourceFile>, c: Conf)
    requires Linked(files, c)
    ensures c.index <= |files|
  {}
}
