/** How a sender cuts its file into frames: with a receiver that can take data while it writes, 200 subpackets to an
    acknowledgement, otherwise one. */
module SenderFrames {
  import opened Bytes
  import opened Options
  import opened Headers
  import opened Subpackets
  import opened SenderSpec

  /** The owner answers one request after another, and each chunk goes out at once. */
  function FeedAll(s: Sender, pieces: seq<seq<byte>>): (res: (Sender, seq<Outgoing>))
    requires Valid(s)
    ensures Valid(res.0) && |res.1| == |pieces|
    decreases |pieces|
  {
    hide FeedFile, Valid;
    if pieces == [] then (s, [])
    else
      var t := FeedFile(s, pieces[0]).0;
      var (u, rest) := FeedAll(Drained(t), pieces[1..]);
      (u, [t.outgoing] + rest)
  }

  function Total(pieces: seq<seq<byte>>): nat
    decreases |pieces|
  {
    if pieces == [] then 0 else |pieces[0]| + Total(pieces[1..])
  }

  /** A frame begins, or goes on with at most `quota` subpackets. */
  ghost predicate MayCarry(s: Sender, offset: int, quota: nat) {
    && Valid(s) && s.outgoing.Empty? && s.request.Some? && s.request.value.offset == offset
    && quota >= 1 && s.frameRemaining == Min(quota, (s.fileSize - offset + 8191) / 8192)
  }

  /** Whole subpackets up to the last one, which need not be whole. */
  predicate InChunks(pieces: seq<seq<byte>>) {
    && pieces != [] && 1 <= |pieces[|pieces| - 1]| <= 8192
    && forall i :: 0 <= i < |pieces| - 1 ==> |pieces[i]| == 8192
  }

  /** This chunk is what was queued. */
  predicate Carries(o: Outgoing, data: seq<byte>, kind: byte) {
    o.Whole? && o.message.Chunk? && o.message.data == data && o.message.kind == kind
  }

  /** The frame ends behind these pieces. */
  predicate Closes(s: Sender, offset: int, quota: nat, pieces: seq<seq<byte>>)
    requires pieces != []
  {
    |pieces| == quota || |pieces[|pieces| - 1]| < 8192 || offset + Total(pieces) == s.fileSize
  }

  lemma ChunkCloses(s: Sender, offset: int, quota: nat, data: seq<byte>)
    requires MayCarry(s, offset, quota) && 1 <= |data| <= 8192 && offset + |data| <= s.fileSize
    ensures var (t, err) := FeedFile(s, data);
      var last := quota == 1 || |data| < 8192 || offset + |data| == s.fileSize;
      && err.None? && Carries(t.outgoing, data, if last then 0x6b else 0x69)
      && (t.state.WaitFileAck? <==> last) && t.fileSize == s.fileSize
      && (!last ==> MayCarry(Drained(t), offset + |data|, quota - 1))
  {
    hide ValidReader;
  }

  /** Every subpacket but the last lets the frame go on, and the last one closes it, with a request for an
      acknowledgement, exactly at the quota, behind a short subpacket and at the end of the file. */
  lemma {:induction false} FrameCloses(s: Sender, offset: int, quota: nat, pieces: seq<seq<byte>>)
    requires MayCarry(s, offset, quota) && InChunks(pieces) && |pieces| <= quota
    requires offset + Total(pieces) <= s.fileSize
    ensures var (t, sent) := FeedAll(s, pieces);
      var n, last := |pieces| - 1, Closes(s, offset, quota, pieces);
      && (forall i :: 0 <= i < n ==> Carries(sent[i], pieces[i], 0x69))
      && Carries(sent[n], pieces[n], if last then 0x6b else 0x69)
      && (t.state.WaitFileAck? <==> last)
    decreases |pieces|
  {
    hide FeedFile, MayCarry, Carries;
    var first, rest := pieces[0], pieces[1..];
    CarryIsValid(s, offset, quota);
    ChunkCloses(s, offset, quota, first);
    if rest == [] {
      assert Total(rest) == 0;
    } else {
      TotalNotEmpty(rest);
      var t := Drained(FeedFile(s, first).0);
      FrameCloses(t, offset + |first|, quota - 1, rest);
      forall i | 0 <= i < |pieces| - 1 ensures Carries(FeedAll(s, pieces).1[i], pieces[i], 0x69) {
        assert i > 0 ==> pieces[i] == rest[i - 1];
      }
    }
  }

  lemma CarryIsValid(s: Sender, offset: int, quota: nat)
    requires MayCarry(s, offset, quota)
    ensures Valid(s) && quota >= 1 && s.request.Some? && s.outgoing.Empty?
  {}

  lemma TotalNotEmpty(pieces: seq<seq<byte>>)
    requires InChunks(pieces)
    ensures Total(pieces) >= 1
  {}

  /** The quota by what the receiver said of itself: bit 1 of its last flag is CANOVIO. */
  function Quota(h: Header): nat { if h.f3 % 4 >= 2 then 200 else 1 }

  /** The receiver introduces itself and names the position it wants: the frame that follows is cut by its quota. */
  lemma FrameAfterZrinit(s: Sender, h: Header, p: Header, pieces: seq<seq<byte>>)
    requires Valid(s) && s.state.WaitReceiverInit? && s.hasFile && FitsOutgoing(s.fileName, s.fileSize)
    requires h.frame == ZRINIT && p.frame == ZRPOS && p.Count() < s.fileSize
    requires InChunks(pieces) && |pieces| <= Quota(h) && p.Count() + Total(pieces) <= s.fileSize
    ensures var t := Drained(HandleHeader(s, h).0);
      && t.request.None?
      && var u := HandleHeader(t, p).0;
         && MayCarry(u, p.Count(), Quota(h)) && u.frameNeedsHeader
         && var (v, sent) := FeedAll(u, pieces);
            var n, last := |pieces| - 1, Closes(s, p.Count(), Quota(h), pieces);
            && (forall i :: 0 <= i < n ==> Carries(sent[i], pieces[i], 0x69))
            && Carries(sent[n], pieces[n], if last then 0x6b else 0x69)
            && (v.state.WaitFileAck? <==> last)
  {
    hide CountOf, FeedAll, InChunks, Total, Carries;
    AsksForFrame(s, h, p);
    FrameCloses(HandleHeader(Drained(HandleHeader(s, h).0), p).0, p.Count(), Quota(h), pieces);
  }

  lemma AsksForFrame(s: Sender, h: Header, p: Header)
    requires Valid(s) && s.state.WaitReceiverInit? && s.hasFile && FitsOutgoing(s.fileName, s.fileSize)
    requires h.frame == ZRINIT && p.frame == ZRPOS && p.Count() < s.fileSize
    ensures var t := Drained(HandleHeader(s, h).0);
      && t.request.None?
      && var u := HandleHeader(t, p).0;
         MayCarry(u, p.Count(), Quota(h)) && u.frameNeedsHeader && u.fileSize == s.fileSize
  {
    hide CountOf, ValidReader, FitsOutgoing;
  }
}
