/** The receiver as the source keeps it: an object whose fields the operations update in place. Every
    method is proved equal to its transition in `ReceiverSpec`. */
module Receivers {
  import opened Bytes
  import opened Options
  import opened Headers
  import opened Subpackets
  import FileInfo
  import R = ReceiverSpec

  class Receiver {
    var state: R.State
    var count: int
    var fileName: seq<byte>
    var fileSize: int
    const sub: SubpacketReader
    const reader: HeaderReader
    var outgoing: seq<byte>
    var events: seq<R.Event>
    var pendingErr: Option<Error>
    ghost var answer: Option<Header>
    ghost var history: seq<R.Entry>

    ghost const Repr: set<object> := {this, reader} + sub.Repr

    ghost function Model(): R.Receiver
      reads this, reader, sub
    {
      R.Receiver(state, count, fileName, fileSize, sub.Model(), reader.Model(), answer, events, pendingErr, history)
    }

    ghost predicate Valid()
      reads Repr
    {
      && R.Valid(Model())
      && sub.Valid()
      && outgoing == R.OutgoingBytes(Model())
    }

    constructor ()
      ensures Valid() && Model() == R.NewReceiver() && fresh(Repr)
    {
      hide Encode;
      reader := new HeaderReader();
      sub := new SubpacketReader();
      state, count, fileName, fileSize := R.SessionBegin, 0, [], 0;
      events, pendingErr, history := [], None, [];
      answer := Some(R.Zrinit());
      outgoing := Encode(R.Zrinit());
    }

    method Queue(h: Header)
      modifies this`outgoing, this`answer
      ensures answer == Some(h) && outgoing == Encode(h)
    {
      outgoing := Encode(h);
      answer := Some(h);
    }

    method OnZdata(h: Header)
      requires Valid()
      modifies Repr
      ensures Valid() && Model() == R.OnZdata(old(Model()), h)
    {
      hide Encode, CountOf, ValidReader, SubpacketReader.Valid;
      if state.SessionBegin? {
        Queue(R.Zrinit());
      } else if state.FileBegin? || state.WaitingSubpacket? {
        if h.Count() != count {
          Queue(WithCount(ZHEX, ZRPOS, count));
        } else {
          sub.BeginReading(h.encoding);
          state := R.ReadingSubpacket;
          history := history + [R.Framed(h.Count())];
        }
      }
    }

    method OnZeof(h: Header)
      requires Valid()
      modifies Repr
      ensures Valid() && Model() == R.OnZeof(old(Model()), h)
    {
      hide Encode, CountOf, ValidReader, SubpacketReader.Valid;
      if state.WaitingSubpacket? && h.Count() == count {
        Queue(R.Zrinit());
        state := R.FileBegin;
        events := events + [R.FileComplete];
        history := history + [R.Completed(h.Count())];
      }
    }

    method OnZfin()
      requires Valid()
      modifies Repr
      ensures Valid() && Model() == R.OnZfin(old(Model()))
    {
      hide Encode, ValidReader, SubpacketReader.Valid;
      if state.WaitingSubpacket? || state.FileBegin? {
        Queue(Plain(ZHEX, ZFIN));
        state := R.SessionEnd;
        events := events + [R.SessionComplete];
        history := history + [R.Ended];
      }
    }

    method HandleHeader(h: Header)
      requires Valid()
      modifies Repr
      ensures Valid() && Model() == R.HandleHeader(old(Model()), h)
    {
      hide Encode, ValidReader, SubpacketReader.Valid, R.OnZdata, R.OnZeof, R.OnZfin;
      if h.frame == ZRQINIT {
        if state.SessionBegin? {
          Queue(R.Zrinit());
        }
      } else if h.frame == ZFILE {
        if state.SessionBegin? || state.FileBegin? {
          sub.BeginReading(h.encoding);
          state := R.ReadingMetadata;
        }
      } else if h.frame == ZDATA {
        OnZdata(h);
      } else if h.frame == ZEOF {
        OnZeof(h);
      } else if h.frame == ZFIN {
        OnZfin();
      }
    }

    method FinishSubpacket() returns (err: Option<Error>)
      requires Valid() && sub.phase.Ready?
      modifies Repr
      ensures Valid() && (Model(), err) == R.FinishSubpacket(old(Model()))
    {
      hide Encode, CountOf, ValidReader, SubpacketReader.Valid, WithCount;
      if count > MAX_COUNT - |sub.buf| {
        return Some(CountOutOfRange);
      }
      err := None;
      CountAndAcknowledge();
      if R.Continues(sub.kind) {
        sub.Empty(Data);
      } else {
        state := R.WaitingSubpacket;
        sub.Empty(Idle);
      }
    }

    /** The buffered bytes count, and are acknowledged if their type asks for it. */
    method CountAndAcknowledge()
      requires Valid() && count + |sub.buf| <= MAX_COUNT
      modifies this`history, this`count, this`outgoing, this`answer
      ensures Valid()
      ensures var r := old(Model());
        var next := r.(count := r.count + |r.sub.buf|).Log(R.Drained(r.sub.buf));
        Model() == if R.AsksAck(r.sub.kind) then next.Reply(WithCount(ZHEX, ZACK, next.count)) else next
    {
      hide Encode, CountOf, ValidReader, ValidSub, SubpacketReader.Valid, WithCount;
      history := history + [R.Drained(sub.buf)];
      count := count + |sub.buf|;
      if R.AsksAck(sub.kind) {
        Queue(WithCount(ZHEX, ZACK, count));
      }
    }

    method ParseZfileBuf() returns (err: Option<Error>)
      requires Valid()
      modifies this`fileName, this`fileSize, this`count
      ensures Valid() && (Model(), err) == R.ParseZfile(old(Model()))
    {
      hide Encode, ValidSub, ValidReader, SubpacketReader.Valid, FileInfo.Before, FileInfo.ParseSize;
      var name := FileInfo.Before(sub.buf, 0);
      if name == [] {
        return Some(MalformedFileName);
      }
      fileName := name;
      var size := FileInfo.ParseSize(sub.buf);
      if size.Err? {
        return Some(size.error);
      }
      fileSize, count := size.value, 0;
      err := None;
    }

    method BeginFile()
      requires Valid()
      modifies Repr
      ensures Valid() && Model() == R.BeginFile(old(Model()))
    {
      hide Encode, CountOf, ValidReader, SubpacketReader.Valid, WithCount;
      sub.Empty(Idle);
      state := R.FileBegin;
      Queue(WithCount(ZHEX, ZRPOS, 0));
      events, history := events + [R.FileStart], history + [R.Started(fileName, fileSize)];
    }

    method AcceptMetadata() returns (err: Option<Error>)
      requires Valid() && state.ReadingMetadata?
      modifies Repr
      ensures Valid() && (Model(), err) == R.AcceptMetadata(old(Model()))
    {
      hide Encode, ValidReader, SubpacketReader.Valid, R.ParseZfile, R.BeginFile;
      err := ParseZfileBuf();
      if err.None? {
        BeginFile();
      }
    }

    method AcceptData() returns (err: Option<Error>)
      requires Valid() && state.ReadingSubpacket?
      modifies Repr
      ensures Valid() && (Model(), err) == R.AcceptData(old(Model()))
    {
      hide Encode, CountOf, ValidReader, SubpacketReader.Valid, R.FinishSubpacket;
      history := history + [R.Accepted(sub.buf, sub.kind, sub.encoding, sub.crcBuf)];
      sub.Hold();
      assert Model() == R.Accept(old(Model()));
      err := None;
      if |sub.buf| == 0 {
        err := FinishSubpacket();
      }
    }

    method ProcessSubpacket(input: seq<byte>, start: nat)
      returns (consumed: nat, done: bool, err: Option<Error>)
      requires Valid() && start <= |input| && (state.ReadingMetadata? || state.ReadingSubpacket?)
      modifies Repr
      ensures Valid() && start <= consumed <= |input|
      ensures R.SubResult(Model(), consumed - start, done, err) == R.Process(old(Model()), input[start..])
    {
      hide Encode, ValidReader, SubpacketReader.Valid, ReadSub, Checksum, R.AcceptMetadata, R.AcceptData;
      var v;
      consumed, v := sub.ReadFrom(input, start);
      err := None;
      match v
      case MoreInput => done := false;
      case Holding => done := true;
      case Bad(e) => done, err := false, Some(e);
      case Intact =>
        if state.ReadingMetadata? {
          err := AcceptMetadata();
        } else {
          err := AcceptData();
        }
        done := err.None?;
    }

    method FeedRound(input: seq<byte>, start: nat)
      returns (consumed: nat, err: Option<Error>, goesOn: bool)
      requires Valid() && start <= |input| && !sub.phase.Ready? && |events| < R.MAX_EVENTS
      modifies Repr
      ensures Valid() && start <= consumed <= |input|
      ensures (R.FeedResult(Model(), consumed - start, err), goesOn) == R.Round(old(Model()), input[start..])
    {
      hide Encode, ValidSub, SubpacketReader.Valid, R.Process, R.HandleHeader, Read, Decoded;
      consumed, err, goesOn := start, None, false;
      if state.ReadingMetadata? || state.ReadingSubpacket? {
        var done;
        consumed, done, err := ProcessSubpacket(input, start);
        R.OutgoingEmpty(Model());
        goesOn := err.None? && done
          && !(|outgoing| > 0 || sub.phase.Ready? || |events| >= R.MAX_EVENTS || consumed == start);
      } else {
        var next, outcome := reader.ReadFrom(input, start);
        match outcome {
          case Failed(e) => consumed, err := next, Some(e);
          case Pending =>
          case Found(h) =>
            consumed := next;
            HandleHeader(h);
            R.OutgoingEmpty(Model());
            goesOn := !(|events| >= R.MAX_EVENTS || |outgoing| > 0 || consumed == start || consumed == |input|);
        }
      }
    }

    method FeedIncoming(input: seq<byte>) returns (consumed: nat, err: Option<Error>)
      requires Valid()
      modifies Repr
      ensures Valid()
      ensures R.FeedResult(Model(), consumed, err) == R.FeedIncoming(old(Model()), input)
    {
      hide Encode, SubpacketReader.Valid, R.Valid, R.Round;
      consumed, err := 0, None;
      if pendingErr.Some? {
        return 0, pendingErr;
      }
      assert input[0..] == input;
      while !sub.phase.Ready? && |events| < R.MAX_EVENTS
        invariant Valid() && consumed <= |input| && err.None?
        invariant R.FeedLoop(old(Model()), input) == R.Later(R.FeedLoop(Model(), input[consumed..]), consumed)
        decreases |input| - consumed
      {
        ghost var before := consumed;
        var goesOn;
        consumed, err, goesOn := FeedRound(input, consumed);
        if !goesOn {
          return;
        }
        assert input[before..][consumed - before..] == input[consumed..];
      }
    }

    method DrainOutgoing() returns (data: seq<byte>)
      requires Valid()
      modifies this`outgoing, this`answer
      ensures Valid() && (Model(), data) == R.DrainOutgoing(old(Model()))
    {
      hide Encode, ValidReader, SubpacketReader.Valid;
      data := outgoing;
      outgoing := [];
      answer := None;
    }

    method DrainFile() returns (data: seq<byte>)
      requires Valid()
      modifies Repr
      ensures Valid() && (Model(), data) == R.DrainFile(old(Model()))
    {
      hide Encode, ValidReader, SubpacketReader.Valid, R.FinishSubpacket;
      if !sub.phase.Ready? {
        return [];
      }
      data := sub.buf;
      var err := FinishSubpacket();
      if err.Some? {
        pendingErr := err;
      }
    }

    method PollEvent() returns (event: Option<R.Event>)
      requires Valid()
      modifies this`events
      ensures Valid() && (Model(), event) == R.PollEvent(old(Model()))
    {
      hide Encode, ValidReader, SubpacketReader.Valid;
      if |events| == 0 {
        return None;
      }
      event := Some(events[0]);
      events := events[1..];
    }
  }
}
