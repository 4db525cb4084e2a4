/** The owner of a receiver: it hands the peer's bytes to the receiver and carries out what comes back, events
    first, then file data, then the answer. */
module ReceiverDriver {
  import opened Bytes
  import opened Options
  import opened Sequences
  import opened Headers
  import opened Subpackets
  import opened SessionSpec
  import R = ReceiverSpec
  import Receivers

  // ----- the order of events and data -----

  /** Neither events nor file data wait, and a started checksum is not complete. */
  ghost predicate NoNews(r: R.Receiver) {
    && R.Valid(r) && r.events == [] && !r.HasFileData()
    && (r.sub.phase.Checking? ==> |r.sub.crcBuf| < CrcLength(r.sub.encoding))
  }

  /** Nothing at all waits to be handed out. */
  ghost predicate Empty(r: R.Receiver) { NoNews(r) && r.answer.None? }

  /** At most one event waits, and never together with file data, so handling events first keeps their order. */
  ghost predicate OneThing(r: R.Receiver) {
    && |r.events| <= 1
    && (r.events != [] ==> !r.HasFileData() && r.answer.Some?)
    && (r.HasFileData() ==> r.sub.buf != [])
    && (r.sub.phase.Checking? ==> |r.sub.crcBuf| < CrcLength(r.sub.encoding))
  }

  /** What feeding leads to: one thing, and none of it if there is nothing to answer and no data. */
  ghost predicate Fresh(t: R.Receiver) {
    && OneThing(t)
    && (t.answer.None? && !t.HasFileData() ==> NoNews(t))
  }

  lemma HeaderGivesOneThing(r: R.Receiver, h: Header)
    requires NoNews(r)
    ensures Fresh(R.HandleHeader(r, h)) && !R.HandleHeader(r, h).HasFileData()
  {
    hide ValidReader, CountOf;
  }

  lemma ProcessGivesOneThing(r: R.Receiver, input: seq<byte>)
    requires NoNews(r) && r.Reading() && R.Process(r, input).err.None?
    ensures var p := R.Process(r, input);
      Fresh(p.receiver) && (p.consumed == 0 ==> NoNews(p.receiver) && p.receiver.answer == r.answer)
  {
    hide ValidReader, ReadSub, FileInfo.Before, FileInfo.ParseSize, Checksum, WithCount;
    ReadingKeepsPhase(r.sub, input);
  }

  /** Reading does not make file data ready by itself, and it stops early only with a verdict. */
  lemma {:induction false} ReadingKeepsPhase(s: Sub, input: seq<byte>)
    requires ValidSub(s) && !s.phase.Ready? && (s.phase.Checking? ==> |s.crcBuf| < CrcLength(s.encoding))
    ensures var x := ReadSub(s, input);
      && !x.sub.phase.Ready? && !x.verdict.Holding?
      && (x.verdict.MoreInput? && x.sub.phase.Checking? ==> |x.sub.crcBuf| < CrcLength(x.sub.encoding))
      && (x.verdict.Intact? ==> x.consumed > 0)
    decreases |input|
  {
    hide Verify, Checksum, PushByte;
    if input != [] {
      match s.phase {
        case Data =>
          var (next, v) := DataByte(s, input[0]);
          if !v.Bad? {
            ReadingKeepsPhase(next, input[1..]);
          }
        case Checking =>
          var next := CrcByte(s, input[0]);
          if |next.crcBuf| < CrcLength(next.encoding) {
            ReadingKeepsPhase(next, input[1..]);
          }
        case _ =>
      }
    }
  }

  lemma RoundGivesOneThing(r: R.Receiver, input: seq<byte>)
    requires NoNews(r) && R.Round(r, input).0.err.None?
    ensures var (f, goesOn) := R.Round(r, input);
      && Fresh(f.receiver) && (goesOn ==> NoNews(f.receiver))
      && (f.consumed == 0 ==> NoNews(f.receiver) && f.receiver.answer == r.answer)
  {
    hide ValidReader, ValidSub, R.Process, R.HandleHeader, Read, Decoded, CountOf;
    if r.Reading() {
      ProcessGivesOneThing(r, input);
    } else {
      var found := Read(r.reader, input);
      var seen := r.(reader := found.reader);
      OutcomeNeedsBytes(found.raw);
      if Decoded(found.raw).Found? {
        HeaderGivesOneThing(seen, Decoded(found.raw).header);
      }
    }
  }

  lemma OutcomeNeedsBytes(raw: Raw)
    ensures Decoded(raw).Found? ==> !raw.More?
  {}

  /** Whatever arrives, in whatever pieces: a receiver whose news have been handed out and that is then fed
      once has at most one thing to hand out before its answer; and if no byte was consumed, nothing. */
  lemma FeedGivesOneThing(r: R.Receiver, input: seq<byte>)
    requires NoNews(r) && R.FeedIncoming(r, input).err.None?
    ensures var f := R.FeedIncoming(r, input);
      Fresh(f.receiver) && (f.consumed == 0 ==> NoNews(f.receiver) && f.receiver.answer == r.answer)
  {
    hide R.FeedLoop;
    LoopGivesOneThing(r, input);
  }

  lemma {:induction false} LoopGivesOneThing(r: R.Receiver, input: seq<byte>)
    requires NoNews(r) && R.FeedLoop(r, input).err.None?
    ensures var f := R.FeedLoop(r, input);
      Fresh(f.receiver) && (f.consumed == 0 ==> NoNews(f.receiver) && f.receiver.answer == r.answer)
    decreases |input|
  {
    hide R.Round, R.Valid;
    RoundGivesOneThing(r, input);
    var (f, goesOn) := R.Round(r, input);
    if goesOn {
      LoopGivesOneThing(f.receiver, input[f.consumed..]);
    }
  }

  // ----- flushing -----

  /** Draining ends: the data counts within 32 bits. Outside this range the receiver hands out the same data
      for ever. */
  ghost predicate Drainable(r: R.Receiver) {
    r.HasFileData() ==> r.sub.buf != [] && r.count + |r.sub.buf| <= MAX_COUNT
  }

  /** How often data can be drained before there is none. */
  function DrainTimes(r: R.Receiver, n: nat): R.Receiver
    requires R.Valid(r)
    ensures R.Valid(DrainTimes(r, n))
    decreases n
  {
    hide R.DrainFile;
    if n == 0 then r else R.DrainFile(DrainTimes(r, n - 1)).0
  }

  lemma {:induction false} OverflowDrainsForEver(r: R.Receiver, n: nat)
    requires R.Valid(r) && r.HasFileData() && r.count + |r.sub.buf| > MAX_COUNT
    ensures var t := DrainTimes(r, n); t.HasFileData() && t.sub == r.sub && t.count == r.count
    ensures R.DrainFile(DrainTimes(r, n)).1 == r.sub.buf
    decreases n
  {
    hide ValidReader, ValidSub;
    if n > 0 {
      OverflowDrainsForEver(r, n - 1);
    }
  }

  lemma DrainOnce(r: R.Receiver)
    requires R.Valid(r) && Drainable(r)
    ensures var t := R.DrainFile(r).0;
      && !t.HasFileData() && R.DrainFile(t) == (t, []) && t.events == r.events
      && t.fileName == r.fileName && t.fileSize == r.fileSize
      && (R.DrainFile(r).1 == [] ==> t == r) && (t.sub.phase.Checking? ==> t.sub == r.sub)
  {
    hide ValidReader, ValidSub;
  }

  // ----- what the owner does, as a function -----

  datatype Owner = Owner(r: R.Receiver, input: seq<byte>, box: Inbox, line: seq<byte>)

  /** How consuming ends: for want of bytes, with the session, in endless draining, or with an error. */
  datatype End = Waiting | Over | Stuck | Broken(err: Error)

  /** Everything is handed out: the events, then the data, then the answer. */
  function Flushed(o: Owner): Owner
    requires R.Valid(o.r)
  {
    hide R.DrainFile;
    var (drained, data) := R.DrainFile(o.r.(events := []));
    Owner(drained.(answer := None), o.input,
          Write(NoteAll(o.box, o.r.events, o.r.fileName, o.r.fileSize), data), o.line + R.OutgoingBytes(drained))
  }

  /** The end of the session stops the owner as soon as it is noted. */
  function Noted(o: Owner): Owner {
    o.(r := o.r.(events := []), box := NoteAll(o.box, o.r.events, o.r.fileName, o.r.fileSize))
  }

  lemma FlushedIsEmpty(o: Owner)
    requires R.Valid(o.r) && OneThing(o.r) && Drainable(o.r)
    ensures Empty(Flushed(o).r) && Flushed(o).input == o.input
    ensures Empty(o.r) ==> Flushed(o) == o
  {
    hide R.DrainFile, ValidReader, ValidSub, Write, NoteAll, R.OutgoingBytes;
    DrainOnce(o.r.(events := []));
    if Empty(o.r) {
      EmptyHandsOutNothing(o.r);
      NoteNothing(o.box, o.r.fileName, o.r.fileSize);
      WriteNothing(o.box);
    }
  }

  /** The consuming loop: feed what is kept, hand out what that leads to, as long as this makes progress. */
  ghost function Consumed(o: Owner): (Owner, End)
    requires NoNews(o.r)
    decreases |o.input|, o.r.answer.Some?
  {
    hide R.FeedIncoming, R.Valid, NoNews, Empty, Flushed, Noted;
    if o.input == [] then
      NoNewsIsValid(o.r);
      (Flushed(o), Waiting)
    else
      NoNewsIsValid(o.r);
      var f := R.FeedIncoming(o.r, o.input);
      var fed := o.(r := f.receiver, input := o.input[f.consumed..]);
      if f.err.Some? then (fed, Broken(f.err.value))
      else if !Drainable(f.receiver) then (fed, Stuck)
      else if R.SessionComplete in f.receiver.events then (Noted(fed), Over)
      else
        FeedGivesOneThing(o.r, o.input);
        FreshIsOneThing(f.receiver);
        FlushedIsEmpty(fed);
        EmptyHasNoNews(Flushed(fed).r);
        NewsOrAnswer(o.r, f);
        if f.consumed == 0 && Empty(f.receiver) then (fed, Waiting) else Consumed(Flushed(fed))
  }

  lemma NoNewsIsValid(r: R.Receiver)
    requires NoNews(r)
    ensures R.Valid(r) && OneThing(r) && Drainable(r)
  {}

  lemma FreshIsOneThing(r: R.Receiver)
    requires Fresh(r)
    ensures OneThing(r)
  {}

  lemma NewsOrAnswer(r: R.Receiver, f: R.FeedResult)
    requires f.consumed == 0 ==> NoNews(f.receiver) && f.receiver.answer == r.answer
    ensures f.consumed == 0 && !Empty(f.receiver) ==> r.answer.Some?
    ensures forall e: R.Receiver :: Empty(e) ==> e.answer.None?
  {}

  /** What the loop leaves: a part of the bytes, the last ones; and if it ends for want of bytes, a receiver that
      has handed out everything. What was handed out before stays. */
  lemma {:induction false} ConsumedKeepsTheRest(o: Owner)
    requires NoNews(o.r)
    ensures var (p, e) := Consumed(o);
      IsSuffix(p.input, o.input) && o.line <= p.line && (e.Waiting? ==> Empty(p.r))
    decreases |o.input|, o.r.answer.Some?
  {
    hide R.FeedIncoming, R.Valid, NoNews, Empty, Flushed, Noted, IsSuffix;
    NoNewsIsValid(o.r);
    SuffixOfSelf(o.input);
    if o.input == [] {
      FlushedIsEmpty(o);
      LineGrows(o);
    } else {
      var f := R.FeedIncoming(o.r, o.input);
      var fed := o.(r := f.receiver, input := o.input[f.consumed..]);
      RestIsSuffix(o.input, f.consumed);
      if f.err.None? && Drainable(f.receiver) && R.SessionComplete !in f.receiver.events {
        FeedGivesOneThing(o.r, o.input);
        FreshIsOneThing(f.receiver);
        FlushedIsEmpty(fed);
        LineGrows(fed);
        EmptyHasNoNews(Flushed(fed).r);
        NewsOrAnswer(o.r, f);
        if !(f.consumed == 0 && Empty(f.receiver)) {
          ConsumedKeepsTheRest(Flushed(fed));
          SuffixOfSuffix(Consumed(Flushed(fed)).0.input, fed.input, o.input);
        }
      } else {
        NotedKeepsLine(fed);
      }
    }
  }

  lemma RestIsSuffix(input: seq<byte>, n: nat)
    requires n <= |input|
    ensures IsSuffix(input[n..], input)
  {}

  lemma LineGrows(o: Owner)
    requires R.Valid(o.r)
    ensures o.line <= Flushed(o).line
  {}

  lemma NotedKeepsLine(o: Owner)
    ensures Noted(o).line == o.line && Noted(o).input == o.input
  {}

  class ZmodemReceive {
    const receiver: Receivers.Receiver
    var input: seq<byte>
    var line: seq<byte>
    var box: Inbox

    ghost const Repr: set<object> := {this} + receiver.Repr

    ghost predicate Valid()
      reads Repr
    {
      receiver.Valid() && this !in receiver.Repr && Drainable(receiver.Model())
    }

    constructor ()
      ensures Valid() && fresh(Repr)
      ensures State() == Owner(R.NewReceiver(), [], Inbox(None, [], 0), [])
    {
      hide Encode, ValidReader, ValidSub, Receivers.Receiver.Valid;
      input, line, box := [], [], Inbox(None, [], 0);
      receiver := new Receivers.Receiver();
    }

    /** Carries out the events that wait; the end of the session stops everything. */
    method HandleEvents() returns (progress: bool, over: bool)
      requires Valid() && OneThing(receiver.Model())
      modifies receiver`events, this`box
      ensures Valid() && receiver.Model() == old(receiver.Model()).(events := [])
      ensures box == NoteAll(old(box), old(receiver.events), receiver.fileName, receiver.fileSize)
      ensures progress <==> old(receiver.events) != []
      ensures over <==> R.SessionComplete in old(receiver.events)
    {
      hide R.Valid, ValidReader;
      progress, over := false, false;
      ghost var events := receiver.events;
      var event := receiver.PollEvent();
      while event.Some?
        invariant Valid() && !over
        invariant receiver.Model() == old(receiver.Model()).(events := [])
        invariant event.Some? ==> !progress && events == [event.value] && box == old(box)
        invariant event.None? ==> (progress <==> events != []) && R.SessionComplete !in events
        invariant event.None? ==> box == NoteAll(old(box), events, receiver.fileName, receiver.fileSize)
        decreases event.Some?
      {
        progress := true;
        NoteOne(box, event.value, receiver.fileName, receiver.fileSize);
        box := Note(box, event.value, receiver.fileName, receiver.fileSize);
        if event.value.SessionComplete? {
          over := true;
          return;
        }
        event := receiver.PollEvent();
      }
    }

    method DrainData() returns (progress: bool)
      requires Valid()
      modifies receiver.Repr, this`box
      ensures Valid() && receiver.Model() == R.DrainFile(old(receiver.Model())).0
      ensures box == Write(old(box), R.DrainFile(old(receiver.Model())).1)
      ensures progress <==> R.DrainFile(old(receiver.Model())).1 != []
      ensures !receiver.Model().HasFileData()
    {
      hide R.Valid, ValidReader, R.DrainFile, Write;
      progress := false;
      ghost var before := receiver.Model();
      DrainOnce(before);
      var data := receiver.DrainFile();
      WriteNothing(box);
      while data != []
        invariant receiver.Valid() && receiver.Model() == R.DrainFile(before).0
        invariant if progress then data == [] && box == Write(old(box), R.DrainFile(before).1) && R.DrainFile(before).1 != []
                  else data == R.DrainFile(before).1 && box == old(box)
        decreases |data|
      {
        progress := true;
        box := Write(box, data);
        data := receiver.DrainFile();
      }
    }

    ghost function State(): Owner
      reads Repr
    {
      Owner(receiver.Model(), input, box, line)
    }

    method Lap() returns (progress: bool, over: bool)
      requires Valid() && OneThing(receiver.Model())
      modifies Repr
      ensures R.Valid(old(receiver.Model()))
      ensures over <==> R.SessionComplete in old(receiver.events)
      ensures over ==> State() == Noted(old(State()))
      ensures !over ==> Valid() && Empty(receiver.Model()) && State() == Flushed(old(State()))
      ensures !over ==> (progress <==> !Empty(old(receiver.Model())))
    {
      hide R.DrainFile, Write, NoteAll, R.OutgoingBytes, ValidReader, ValidSub;
      ghost var before := receiver.Model();
      DrainOnce(before.(events := []));
      var handled;
      handled, over := HandleEvents();
      if over {
        return true, true;
      }
      var drained := DrainData();
      R.OutgoingEmpty(receiver.Model());
      var answer := receiver.DrainOutgoing();
      line := line + answer;
      progress := handled || drained || answer != [];
      WhatDrains(before);
      if Empty(before) {
        EmptyHandsOutNothing(before);
      }
    }

    /** Until nothing is left to hand out: the second lap finds nothing. */
    method FlushReceiver() returns (progress: bool, over: bool)
      requires Valid() && OneThing(receiver.Model())
      modifies Repr
      ensures R.Valid(old(receiver.Model()))
      ensures over <==> R.SessionComplete in old(receiver.events)
      ensures over ==> State() == Noted(old(State()))
      ensures !over ==> Valid() && Empty(receiver.Model()) && State() == Flushed(old(State()))
      ensures !over ==> (progress <==> !Empty(old(receiver.Model())))
    {
      hide R.DrainFile, Flushed, Noted, R.Valid, OneThing;
      var again;
      progress, over := Lap();
      again := progress;
      while again && !over
        invariant over <==> R.SessionComplete in old(receiver.events)
        invariant over ==> State() == Noted(old(State()))
        invariant !over ==> Valid() && Empty(receiver.Model()) && State() == Flushed(old(State()))
        decreases again
      {
        EmptyIsOneThing(receiver.Model());
        EmptyIsDrainable(receiver.Model());
        FlushedIsEmpty(State());
        again, over := Lap();
      }
    }

    /** One round of the consuming loop, and whether there is a next one. `stuck` stands for the endless
        draining of `OverflowDrainsForEver`. */
    method FeedOnce() returns (again: bool, end: End)
      requires Valid() && NoNews(receiver.Model()) && input != []
      modifies Repr
      ensures again ==> end.Waiting? && Valid() && Empty(receiver.Model())
      ensures again ==> |input| <= |old(input)| && receiver.answer.None?
      ensures again ==> |input| < |old(input)| || old(receiver.answer).Some?
      ensures again ==> NoNews(State().r) && Consumed(old(State())) == Consumed(State())
      ensures !again ==> (State(), end) == Consumed(old(State())) && (end.Waiting? ==> Valid() && Empty(receiver.Model()))
    {
      hide R.FeedIncoming, R.Valid, ValidReader, Flushed, Noted, R.DrainFile, NoNews, Empty, Fresh, OneThing;
      again, end := false, Waiting;
      ghost var before := State();
      NoNewsIsValid(before.r);
      var consumed, err := receiver.FeedIncoming(input);
      input := input[consumed..];
      if err.Some? {
        return false, Broken(err.value);
      }
      FeedGivesOneThing(before.r, before.input);
      FreshIsOneThing(receiver.Model());
      NewsOrAnswer(before.r, R.FeedIncoming(before.r, before.input));
      if receiver.sub.phase.Ready? && receiver.count + |receiver.sub.buf| > MAX_COUNT {
        return false, Stuck;
      }
      DrainableIfInRange(receiver.Model());
      ghost var fed := State();
      FlushedIsEmpty(fed);
      var progress, over := FlushReceiver();
      if over {
        return false, Over;
      }
      EmptyHasNoNews(receiver.Model());
      again := consumed > 0 || progress;
    }

    /** Bytes from the peer, behind those kept from before. */
    method ReceiverConsume(data: seq<byte>) returns (end: End)
      requires Valid() && NoNews(receiver.Model())
      modifies Repr
      ensures (State(), end) == Consumed(old(State()).(input := old(input) + data))
      ensures end.Waiting? ==> Valid() && Empty(receiver.Model())
    {
      hide NoNews, Empty, R.Valid, Flushed, Noted, OneThing, Consumed, Drainable, Receivers.Receiver.Valid;
      input := input + data;
      end := Waiting;
      ghost var start := State();
      var again := true;
      while again && |input| > 0
        invariant end.Waiting? ==> Valid() && NoNews(receiver.Model())
        invariant again ==> end.Waiting? && Consumed(start) == Consumed(State())
        invariant !again ==> (State(), end) == Consumed(start) && (end.Waiting? ==> Empty(receiver.Model()))
        decreases again, |input|, receiver.answer.Some?
      {
        again, end := FeedOnce();
        EmptyHasNoNews(receiver.Model());
      }
      if end.Waiting? {
        NoNewsIsValid(receiver.Model());
        FlushedIsEmpty(State());
        NoSessionEnd(receiver.Model());
        ConsumedNothing(State());
        var progress, over := FlushReceiver();
      }
    }
  }

  /** What the laps find to hand out. */
  lemma WhatDrains(r: R.Receiver)
    requires R.Valid(r) && OneThing(r) && Drainable(r)
    ensures R.DrainFile(r.(events := [])).1 != [] <==> r.HasFileData()
    ensures r.HasFileData() || R.DrainFile(r.(events := [])).0.answer == r.answer
    ensures Empty(r) <==> r.events == [] && !r.HasFileData() && r.answer.None?
  {
    hide ValidReader, ValidSub;
  }

  lemma DrainableIfInRange(r: R.Receiver)
    requires OneThing(r)
    ensures Drainable(r) <==> !(r.sub.phase.Ready? && r.count + |r.sub.buf| > MAX_COUNT)
  {}

  lemma EmptyIsDrainable(r: R.Receiver)
    ensures Empty(r) ==> R.Valid(r) && Drainable(r)
  {}

  lemma ConsumedNothing(o: Owner)
    requires NoNews(o.r)
    ensures R.Valid(o.r) && (o.input == [] ==> Consumed(o) == (Flushed(o), Waiting))
  {}

  lemma NoSessionEnd(r: R.Receiver)
    requires NoNews(r)
    ensures R.SessionComplete !in r.events
  {}

  lemma SuffixOfSelf(a: seq<byte>)
    ensures IsSuffix(a, a)
  {}

  lemma SuffixOfSuffix(a: seq<byte>, b: seq<byte>, c: seq<byte>)
    ensures IsSuffix(a, b) && IsSuffix(b, c) ==> IsSuffix(a, c) && |a| <= |b|
  {
    if IsSuffix(a, b) && IsSuffix(b, c) {
      assert c[|c| - |b|..][|b| - |a|..] == c[|c| - |a|..];
    }
  }

  lemma EmptyHasNoNews(r: R.Receiver)
    ensures Empty(r) ==> NoNews(r)
  {}

  lemma EmptyHandsOutNothing(r: R.Receiver)
    requires Empty(r)
    ensures R.Valid(r) && r.(events := []) == r && r.(answer := None) == r
    ensures R.DrainFile(r) == (r, []) && R.OutgoingBytes(r) == []
  {
    hide R.Valid;
  }

  lemma EmptyIsOneThing(r: R.Receiver)
    ensures Empty(r) ==> OneThing(r)
  {}

  lemma WriteNothing(box: Inbox)
    ensures Write(box, []) == box
  {}

  lemma NoteNothing(box: Inbox, name: seq<byte>, size: int)
    ensures NoteAll(box, [], name, size) == box
  {}
}
