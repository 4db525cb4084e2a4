/** Feeding bytes again. When a header is incomplete, the receiver reports no byte as consumed although its
    reader has absorbed them; its owner keeps the bytes and feeds them once more with the next ones. This is
    harmless exactly when the bytes, read twice in a row, contain no start of a header. */
module Refeed {
  import opened Bytes
  import opened Options
  import opened Headers
  import opened Escape
  import R = ReceiverSpec

  /** What the receiver does with the first part of a header, or with noise. */
  lemma AbsorbedButNotConsumed(r: R.Receiver, a: seq<byte>)
    requires R.Valid(r) && !R.Busy(r) && !r.Reading() && r.pendingErr.None?
    requires Read(r.reader, a).raw.More?
    ensures R.FeedIncoming(r, a) == R.FeedResult(r.(reader := Read(r.reader, a).reader), 0, None)
  {
    hide Read, R.HandleHeader;
  }

  // ----- once -----

  /** The outcome is the same whether or not the bytes `a` are fed a second time. */
  ghost predicate Harmless(a: seq<byte>) {
    forall b :: Decoded(Read(Read(IDLE, a).reader, a + b).raw) == Decoded(Read(IDLE, a + b).raw)
  }

  // ----- harmless -----

  ghost predicate Alike(r: Reader, s: Reader) { Idle(r) && Idle(s) && (r.pads.NoPad? <==> s.pads.NoPad?) }

  lemma {:induction false} AlikeReadAlike(r: Reader, s: Reader, b: seq<byte>)
    requires Alike(r, s)
    ensures Read(r, b).raw == Read(s, b).raw
    decreases |b|
  {
    if b != [] {
      var x, y := StepReader(r, b[0]).0, StepReader(s, b[0]).0;
      if x.phase.Seeking? {
        AlikeReadAlike(x, y, b[1..]);
      }
    }
  }

  lemma QuietTwice(a: seq<byte>)
    requires Quiet(a + a)
    ensures Quiet(a) && (a != [] && a[|a| - 1] == ZPAD ==> a[0] != ZDLE)
  {
    forall i | 0 <= i < |a| - 1 && a[i] == ZPAD ensures a[i + 1] != ZDLE {
      assert (a + a)[i] == a[i] && (a + a)[i + 1] == a[i + 1];
    }
    if a != [] && a[|a| - 1] == ZPAD {
      assert (a + a)[|a| - 1] == ZPAD && (a + a)[|a|] == a[0];
    }
  }

  lemma QuietTwiceIsHarmless(a: seq<byte>)
    requires Quiet(a + a)
    ensures Read(IDLE, a).raw.More? && Harmless(a)
  {
    QuietTwice(a);
    ReadNoise(IDLE, a);
    var once := Read(IDLE, a).reader;
    ReadNoise(once, a);
    var twice := Read(once, a).reader;
    forall b ensures Decoded(Read(once, a + b).raw) == Decoded(Read(IDLE, a + b).raw) {
      ReadAppend(IDLE, a, b);
      ReadAppend(once, a, b);
      AlikeReadAlike(once, twice, b);
    }
  }

  // ----- harmful -----

  /** Once a header has started, the reader does not go back to seeking without an outcome. */
  lemma {:induction false} StartedStaysStarted(r: Reader, a: seq<byte>)
    requires ValidReader(r) && !r.phase.Seeking? && Read(r, a).raw.More?
    ensures !Read(r, a).reader.phase.Seeking?
    ensures r.phase.Collecting? ==> var s := Read(r, a).reader;
      s.phase.Collecting? && s.expectedLen == r.expectedLen && s.encoding == r.encoding && |s.buf| >= |r.buf|
    ensures r.phase.Collecting? && ZPAD in a ==> |Read(r, a).reader.buf| > |r.buf|
    decreases |a|
  {
    if a != [] {
      var next := StepReader(r, a[0]).0;
      StartedStaysStarted(next, a[1..]);
      assert ZPAD in a ==> a[0] == ZPAD || ZPAD in a[1..];
    }
  }

  lemma {:induction false} SeekingMeansQuiet(r: Reader, a: seq<byte>)
    requires ValidReader(r) && r.phase.Seeking? && Read(r, a).raw.More? && Read(r, a).reader.phase.Seeking?
    ensures Quiet(a) && (a != [] && !r.pads.NoPad? ==> a[0] != ZDLE)
    decreases |a|
  {
    if a != [] {
      var next := StepReader(r, a[0]).0;
      if next.phase.Seeking? {
        SeekingMeansQuiet(next, a[1..]);
        forall i | 0 <= i < |a| - 1 && a[i] == ZPAD ensures a[i + 1] != ZDLE {
          if i > 0 {
            assert a[1..][i - 1] == ZPAD;
          }
        }
      } else {
        StartedStaysStarted(next, a[1..]);
        assert false;
      }
    }
  }

  lemma {:induction false} CollectingHasType(r: Reader, a: seq<byte>)
    requires ValidReader(r) && r.phase.Collecting?
    ensures !Read(r, a).raw.BadType?
    decreases |a|
  {
    if a != [] {
      var (next, raw) := StepReader(r, a[0]);
      if raw.More? {
        CollectingHasType(next, a[1..]);
      }
    }
  }

  /** A byte that stands for itself. */
  const PLAIN: byte := 0x58

  function Fill(m: nat): seq<byte> { seq(m, i => PLAIN) }

  lemma {:induction false} FillCompletes(r: Reader, m: nat)
    requires ValidReader(r) && r.phase.Collecting?
    ensures Read(r, Fill(m)).raw.More? <==> |r.buf| + m < r.expectedLen
    decreases m
  {
    if m > 0 {
      var next := StepReader(r, PLAIN).0;
      assert Fill(m)[1..] == Fill(m - 1);
      if |r.buf| + 1 < r.expectedLen {
        FillCompletes(next, m - 1);
      }
    }
  }

  lemma NotPending(raw: Raw)
    ensures Decoded(raw) == Pending <==> raw.More?
    ensures raw.Complete? ==> Decoded(raw) != Failed(MalformedPacketType)
  {}

  /** The reader waits for the type of a header when the bytes come again. */
  lemma HarmfulBeforeType(a: seq<byte>)
    requires a != [] && Read(IDLE, a).raw.More? && Read(IDLE, a).reader.phase.Typing?
    ensures !Harmless(a)
  {
    var r := Read(IDLE, a).reader;
    var b := if KnownEncoding(a[0]) then [0] else [ZBIN];
    ReadAppend(IDLE, a, b);
    assert (a + b)[0] == a[0];
    if KnownEncoding(a[0]) {
      CollectingHasType(StepReader(r, a[0]).0, (a + b)[1..]);
      assert !Read(r, a + b).raw.BadType?;
      NotPending(Read(r, a + b).raw);
      assert Read(r, [0]).raw.BadType?;
    } else {
      assert Read(r, a + b).raw.BadType?;
      assert [ZBIN][1..] == [];
      assert Read(r, [ZBIN]).raw.More?;
    }
  }

  /** From a reader that collects more bytes than the honest one, some plain bytes complete the header early. */
  lemma HarmfulWhenAhead(a: seq<byte>, s: Reader)
    requires Read(IDLE, a).raw.More? && Read(Read(IDLE, a).reader, a) == ReadResult(s, |a|, More)
    requires ValidReader(s) && s.phase.Collecting?
    requires var r := Read(IDLE, a).reader;
      Idle(r) || (r.phase.Collecting? && r.expectedLen == s.expectedLen && |r.buf| < |s.buf|)
    ensures !Harmless(a)
  {
    var r := Read(IDLE, a).reader;
    var m := s.expectedLen - |s.buf|;
    ReadAppend(IDLE, a, Fill(m));
    ReadAppend(r, a, Fill(m));
    FillCompletes(s, m);
    NotPending(Read(s, Fill(m)).raw);
    if Idle(r) {
      ReadNoise(r, Fill(m));
    } else {
      FillCompletes(r, m);
    }
    NotPending(Read(r, Fill(m)).raw);
    assert Decoded(Read(r, a + Fill(m)).raw) != Decoded(Read(IDLE, a + Fill(m)).raw);
  }

  lemma HarmfulWhenDone(a: seq<byte>)
    requires Read(IDLE, a).raw.More? && !Read(Read(IDLE, a).reader, a).raw.More?
    ensures !Harmless(a)
  {
    var r := Read(IDLE, a).reader;
    assert a + [] == a;
    NotPending(Read(r, a).raw);
    NotPending(Read(IDLE, a).raw);
    assert Decoded(Read(r, a + []).raw) != Decoded(Read(IDLE, a + []).raw);
  }

  lemma NoisyTwiceIsHarmful(a: seq<byte>)
    requires Read(IDLE, a).raw.More? && !Quiet(a + a)
    ensures !Harmless(a)
  {
    var r := Read(IDLE, a).reader;
    if !Read(r, a).raw.More? {
      HarmfulWhenDone(a);
    } else if r.phase.Typing? {
      HarmfulBeforeType(a);
    } else if r.phase.Collecting? {
      PadInside(a);
      StartedStaysStarted(r, a);
      HarmfulWhenAhead(a, Read(r, a).reader);
    } else {
      SeekingMeansQuiet(IDLE, a);
      ReadNoise(IDLE, a);
      BoundaryStarts(a);
      assert !Read(r, a).reader.phase.Seeking? by {
        if Read(r, a).reader.phase.Seeking? {
          SeekingMeansQuiet(r, a);
        }
      }
      TypeFollows(r, a);
      HarmfulWhenAhead(a, Read(r, a).reader);
    }
  }

  /** A reader that is past seeking has seen a pad. */
  lemma PadInside(a: seq<byte>)
    requires Read(IDLE, a).raw.More? && !Read(IDLE, a).reader.phase.Seeking?
    ensures ZPAD in a
  {
    if ZPAD !in a {
      ReadNoise(IDLE, a);
    }
  }

  lemma BoundaryStarts(a: seq<byte>)
    requires Quiet(a) && !Quiet(a + a)
    ensures |a| >= 2 && a[0] == ZDLE && a[|a| - 1] == ZPAD
  {
    var t := a + a;
    assert forall k :: 0 <= k < |a| ==> t[k] == a[k] && t[|a| + k] == a[k];
    var i :| 0 <= i < |t| - 1 && t[i] == ZPAD && t[i + 1] == ZDLE;
    assert i == |a| - 1;
  }

  /** Behind a pad, a ZDLE and a type byte the reader collects. */
  lemma TypeFollows(r: Reader, a: seq<byte>)
    requires Idle(r) && !r.pads.NoPad? && |a| >= 2 && a[0] == ZDLE && Read(r, a).raw.More?
    ensures Read(r, a).reader.phase.Collecting?
  {
    var typing := StepReader(r, a[0]).0;
    assert typing.phase.Typing?;
    var collecting := StepReader(typing, a[1..][0]).0;
    assert collecting.phase.Collecting?;
    StartedStaysStarted(collecting, a[1..][1..]);
  }

  /** The exact condition. */
  lemma RefeedIsHarmlessIffQuietTwice(a: seq<byte>)
    requires Read(IDLE, a).raw.More?
    ensures Harmless(a) <==> Quiet(a + a)
  {
    if Quiet(a + a) {
      QuietTwiceIsHarmless(a);
    } else {
      NoisyTwiceIsHarmful(a);
    }
  }

  // ----- any number of times -----

  /** The reader after the kept bytes were fed, as they grew, once for every arrival. */
  function Refed(kept: seq<seq<byte>>): (r: Reader)
    ensures ValidReader(r)
    decreases |kept|
  {
    if kept == [] then IDLE else Read(Refed(kept[..|kept| - 1]), kept[|kept| - 1]).reader
  }

  /** What is kept is never empty, only grows, and holds no complete header. */
  ghost predicate Growing(kept: seq<seq<byte>>) {
    && (forall i :: 0 <= i < |kept| ==> kept[i] != [] && Read(IDLE, kept[i]).raw.More?)
    && (forall i, j :: 0 <= i < j < |kept| ==> kept[i] <= kept[j])
  }

  /** Feeding `a` again, with whatever follows, to this reader has the outcome of reading it for the first time. */
  ghost predicate SameOutcome(r: Reader, a: seq<byte>)
    requires ValidReader(r)
  {
    forall b :: Decoded(Read(r, a + b).raw) == Decoded(Read(IDLE, a + b).raw)
  }

  /** A reader in front of a header reads as a new one, unless a pad that it remembers meets a ZDLE. */
  lemma {:induction false} ForgetsNoise(r: Reader, a: seq<byte>)
    requires Idle(r) && a != [] && (r.pads.NoPad? || a[0] != ZDLE)
    ensures Read(r, a).raw == Read(IDLE, a).raw
  {
    var x, y := StepReader(r, a[0]).0, StepReader(IDLE, a[0]).0;
    AlikeReadAlike(x, y, a[1..]);
  }

  lemma OutcomeAfterNoise(r: Reader, a: seq<byte>)
    requires Idle(r) && a != [] && (r.pads.NoPad? || a[0] != ZDLE) && Read(IDLE, a).raw.More?
    ensures SameOutcome(Read(r, a).reader, a) <==> Quiet(a + a)
  {
    hide Quiet, Read;
    var x, y := Read(r, a).reader, Read(IDLE, a).reader;
    ForgetsNoise(r, a);
    forall b ensures Read(x, a + b).raw == Read(y, a + b).raw {
      ReadAppend(r, a, a + b);
      ReadAppend(IDLE, a, a + b);
      assert (a + (a + b))[0] == a[0];
      ForgetsNoise(r, a + (a + b));
    }
    RefeedIsHarmlessIffQuietTwice(a);
    assert Harmless(a) <==> SameOutcome(x, a);
  }

  lemma {:induction false} RefedIsIdle(kept: seq<seq<byte>>)
    requires Growing(kept) && forall i :: 0 <= i < |kept| ==> Quiet(kept[i] + kept[i])
    ensures Idle(Refed(kept))
    ensures kept == [] ==> Refed(kept) == IDLE
    ensures kept != [] && !Refed(kept).pads.NoPad? ==> kept[|kept| - 1][0] != ZDLE
    decreases |kept|
  {
    if kept != [] {
      var front, a := kept[..|kept| - 1], kept[|kept| - 1];
      RefedIsIdle(front);
      QuietTwice(a);
      if front != [] {
        assert front[|front| - 1] <= a && a[0] == front[|front| - 1][0];
      }
      ReadNoise(Refed(front), a);
    }
  }

  /** However often what is kept grows and is fed again: every feeding has the outcome of a first reading, for
      every continuation, if and only if everything that was ever kept is quiet twice in a row. */
  lemma {:induction false} RefeedsAreHarmlessIffQuietTwice(kept: seq<seq<byte>>)
    requires Growing(kept)
    ensures (forall i :: 0 <= i < |kept| ==> SameOutcome(Refed(kept[..i + 1]), kept[i])) <==>
      forall i :: 0 <= i < |kept| ==> Quiet(kept[i] + kept[i])
    decreases |kept|
  {
    hide SameOutcome, Quiet, Refed, Growing;
    if kept != [] {
      var n := |kept| - 1;
      var front := kept[..n];
      FrontGrows(kept);
      RefeedsAreHarmlessIffQuietTwice(front);
      assert kept[..n + 1] == kept;
      assert (forall i :: 0 <= i < n ==> SameOutcome(Refed(kept[..i + 1]), kept[i])) <==>
        forall i :: 0 <= i < n ==> Quiet(kept[i] + kept[i]) by {
        FrontAgrees(kept);
      }
      if forall i :: 0 <= i < n ==> Quiet(kept[i] + kept[i]) {
        LastRefeed(kept);
      }
    }
  }

  lemma FrontGrows(kept: seq<seq<byte>>)
    requires Growing(kept) && kept != []
    ensures Growing(kept[..|kept| - 1])
  {
    hide Read;
  }

  /** The two conditions for all but the last of what was kept. */
  lemma FrontAgrees(kept: seq<seq<byte>>)
    requires kept != []
    ensures var n := |kept| - 1; var front := kept[..n];
      && ((forall i :: 0 <= i < |front| ==> SameOutcome(Refed(front[..i + 1]), front[i])) <==>
            forall i :: 0 <= i < n ==> SameOutcome(Refed(kept[..i + 1]), kept[i]))
      && ((forall i :: 0 <= i < |front| ==> Quiet(front[i] + front[i])) <==>
            forall i :: 0 <= i < n ==> Quiet(kept[i] + kept[i]))
  {
    hide SameOutcome, Quiet, Refed;
    var n := |kept| - 1;
    var front := kept[..n];
    forall i | 0 <= i < n ensures front[..i + 1] == kept[..i + 1] && front[i] == kept[i] {}
  }

  /** The last feeding, if everything kept before was quiet twice. */
  lemma LastRefeed(kept: seq<seq<byte>>)
    requires Growing(kept) && kept != []
    requires forall i :: 0 <= i < |kept| - 1 ==> Quiet(kept[i] + kept[i])
    ensures var a := kept[|kept| - 1]; SameOutcome(Refed(kept), a) <==> Quiet(a + a)
  {
    hide SameOutcome, Quiet, Refed, Read;
    var n := |kept| - 1;
    var front, a := kept[..n], kept[n];
    RefedIsIdle(front);
    if n > 0 {
      assert front[n - 1] <= a && a[0] == front[n - 1][0];
    }
    OutcomeAfterNoise(Refed(front), a);
    RefedOnce(kept);
  }

  lemma RefedOnce(kept: seq<seq<byte>>)
    requires kept != []
    ensures Refed(kept) == Read(Refed(kept[..|kept| - 1]), kept[|kept| - 1]).reader
  {}
}
