/** Finding the start of a ZMODEM session in terminal output that arrives in pieces. */
module Detector {
  import opened Bytes
  import opened Options
  import opened Headers

  datatype Mode = Receive | Send

  /** `**` ZDLE `B00` and `**` ZDLE `B01`: the first bytes of a ZRQINIT and of a ZRINIT header. */
  const RECEIVE_PREFIX: seq<byte> := [42, 42, 24, 66, 48, 48]
  const SEND_PREFIX: seq<byte> := [42, 42, 24, 66, 48, 49]

  datatype Detection = Detection(terminal: seq<byte>, mode: Option<Mode>, protocol: seq<byte>)

  // ----- what is looked for -----

  predicate OccursAt(s: seq<byte>, pattern: seq<byte>, i: nat) {
    i + |pattern| <= |s| && s[i..i + |pattern|] == pattern
  }

  predicate HeaderAt(s: seq<byte>, i: nat) {
    i + 6 <= |s| && (OccursAt(s, RECEIVE_PREFIX, i) || OccursAt(s, SEND_PREFIX, i))
  }

  function ModeAt(s: seq<byte>, i: nat): Mode { if OccursAt(s, RECEIVE_PREFIX, i) then Receive else Send }

  ghost predicate IsFirst(s: seq<byte>, i: nat) { HeaderAt(s, i) && forall j: nat :: j < i ==> !HeaderAt(s, j) }

  ghost predicate NoHeader(s: seq<byte>) { forall i: nat :: !HeaderAt(s, i) }

  /** The last `n` bytes could begin a header. */
  predicate CouldStart(s: seq<byte>, n: nat) {
    n <= |s| && n < 6 && (s[|s| - n..] == RECEIVE_PREFIX[..n] || s[|s| - n..] == SEND_PREFIX[..n])
  }

  /** How many trailing bytes must be held back: the longest possible header start. */
  function Held(s: seq<byte>, limit: nat): (n: nat)
    requires limit <= |s| && limit < 6
    ensures n <= limit && CouldStart(s, n)
    ensures forall m :: n < m <= limit ==> !CouldStart(s, m)
  {
    if limit == 0 || CouldStart(s, limit) then limit else Held(s, limit - 1)
  }

  function Retained(s: seq<byte>): (n: nat)
    ensures n <= |s| && n <= 5 && CouldStart(s, n)
    ensures forall m: nat :: CouldStart(s, m) ==> m <= n
  {
    Held(s, if |s| < 5 then |s| else 5)
  }

  function Emitted(s: seq<byte>): seq<byte> { s[..|s| - Retained(s)] }

  function Tail(s: seq<byte>): seq<byte> { s[|s| - Retained(s)..] }

  // ----- the detector -----

  /** The outcome of one call, given what was held back before. */
  ghost predicate Consumed(buffer: seq<byte>, data: seq<byte>, d: Detection, after: seq<byte>) {
    var all := buffer + data;
    if NoHeader(all) then d == Detection(Emitted(all), None, []) && after == Tail(all)
    else exists i: nat :: IsFirst(all, i) && d == Detection(all[..i], Some(ModeAt(all, i)), all[i..]) && after == []
  }

  /** The first position of a pattern, if there is one. */
  method Index(s: seq<byte>, pattern: seq<byte>) returns (i: int)
    requires pattern != []
    ensures i < 0 ==> forall j: nat :: !OccursAt(s, pattern, j)
    ensures i >= 0 ==> OccursAt(s, pattern, i) && forall j: nat :: j < i ==> !OccursAt(s, pattern, j)
  {
    i := 0;
    while i + |pattern| <= |s|
      invariant 0 <= i
      invariant forall j: nat :: j < i ==> !OccursAt(s, pattern, j)
    {
      if s[i..i + |pattern|] == pattern {
        return;
      }
      i := i + 1;
    }
    i := -1;
  }

  /** The earlier of the two kinds of header start. */
  method DetectHeader(s: seq<byte>) returns (found: Option<(Mode, nat)>)
    ensures found.None? ==> NoHeader(s)
    ensures found.Some? ==> IsFirst(s, found.value.1) && found.value.0 == ModeAt(s, found.value.1)
  {
    var receive := Index(s, RECEIVE_PREFIX);
    var send := Index(s, SEND_PREFIX);
    if receive >= 0 && (send < 0 || receive < send) {
      return Some((Receive, receive));
    }
    if send >= 0 {
      NotBoth(s, send);
      return Some((Send, send));
    }
    found := None;
  }

  lemma NotBoth(s: seq<byte>, i: nat)
    ensures !(OccursAt(s, RECEIVE_PREFIX, i) && OccursAt(s, SEND_PREFIX, i))
  {
    assert RECEIVE_PREFIX[5] != SEND_PREFIX[5];
  }

  method LongestHeaderPrefixSuffix(s: seq<byte>) returns (retain: nat)
    ensures retain == Retained(s)
  {
    retain := if |s| < 5 then |s| else 5;
    while retain > 0 && !CouldStart(s, retain)
      invariant retain <= |s| && retain <= 5
      invariant forall m: nat :: CouldStart(s, m) ==> m <= retain
    {
      retain := retain - 1;
    }
  }

  class HeaderDetector {
    var buffer: seq<byte>

    constructor ()
      ensures buffer == []
    {
      buffer := [];
    }

    method Reset()
      modifies this
      ensures buffer == []
    {
      buffer := [];
    }

    method Consume(data: seq<byte>) returns (d: Detection)
      modifies this
      ensures Consumed(old(buffer), data, d, buffer)
    {
      hide OccursAt, ModeAt, CouldStart, Retained;
      buffer := buffer + data;
      ghost var all := buffer;
      var found := DetectHeader(buffer);
      if found.Some? {
        var (mode, offset) := found.value;
        d := Detection(buffer[..offset], Some(mode), buffer[offset..]);
        buffer := [];
        return;
      }
      var retain := LongestHeaderPrefixSuffix(buffer);
      if retain == 0 {
        assert Emitted(all) == all && Tail(all) == [];
        d := Detection(buffer, None, []);
        buffer := [];
        return;
      }
      if |buffer| <= retain {
        assert Emitted(all) == [] && Tail(all) == all;
        return Detection([], None, []);
      }
      d := Detection(buffer[..|buffer| - retain], None, []);
      buffer := buffer[|buffer| - retain..];
    }
  }

  // ----- pieces against the whole stream -----

  lemma HeaderIsLocal(s: seq<byte>, more: seq<byte>, i: nat)
    requires i + 6 <= |s|
    ensures HeaderAt(s + more, i) <==> HeaderAt(s, i)
    ensures ModeAt(s + more, i) == ModeAt(s, i)
  {
    assert (s + more)[i..i + 6] == s[i..i + 6];
  }

  lemma HeaderInSuffix(t: seq<byte>, k: nat, i: nat)
    requires k <= |t|
    ensures HeaderAt(t[k..], i) <==> HeaderAt(t, k + i)
    ensures ModeAt(t[k..], i) == ModeAt(t, k + i)
  {
    if k + i + 6 <= |t| {
      assert t[k..][i..i + 6] == t[k + i..k + i + 6];
    }
  }

  /** A header that only becomes complete with later bytes starts within the bytes held back. */
  lemma StartIsHeld(s: seq<byte>, more: seq<byte>, i: nat)
    requires NoHeader(s) && HeaderAt(s + more, i)
    ensures |s| - Retained(s) <= i
  {
    if i < |s| {
      var t, n := s + more, |s| - i;
      var p := if OccursAt(t, RECEIVE_PREFIX, i) then RECEIVE_PREFIX else SEND_PREFIX;
      forall j: nat | j + 6 <= |s| ensures HeaderAt(t, j) <==> HeaderAt(s, j) {
        HeaderIsLocal(s, more, j);
      }
      assert t[i..i + 6][..n] == s[i..];
      assert CouldStart(s, n);
    }
  }

  /** Going on from the held bytes finds what going on from the whole stream would find. */
  lemma ShiftedHeader(s: seq<byte>, data: seq<byte>, i: nat)
    requires NoHeader(s)
    ensures var k := |s| - Retained(s);
      && (HeaderAt(s + data, i) ==> k <= i && HeaderAt(Tail(s) + data, i - k))
      && (HeaderAt(Tail(s) + data, i) ==> HeaderAt(s + data, i + k) && ModeAt(s + data, i + k) == ModeAt(Tail(s) + data, i))
  {
    hide OccursAt, ModeAt, Retained;
    var k, t := |s| - Retained(s), s + data;
    assert Tail(s) + data == t[k..];
    HeaderInSuffix(t, k, i);
    if HeaderAt(t, i) {
      StartIsHeld(s, data, i);
      HeaderInSuffix(t, k, i - k);
    }
  }

  lemma SameSuffix(t: seq<byte>, k: nat, n: nat)
    requires k + n <= |t|
    ensures CouldStart(t[k..], n) <==> CouldStart(t, n)
  {
    assert t[k..][|t[k..]| - n..] == t[|t| - n..];
  }

  lemma StartWithoutEnd(s: seq<byte>, data: seq<byte>, n: nat)
    requires CouldStart(s + data, n) && n >= |data|
    ensures CouldStart(s, n - |data|)
  {
    var t, m := s + data, n - |data|;
    assert t[|t| - n..][..m] == s[|s| - m..];
    assert RECEIVE_PREFIX[..n][..m] == RECEIVE_PREFIX[..m] && SEND_PREFIX[..n][..m] == SEND_PREFIX[..m];
  }

  lemma SameTail(s: seq<byte>, data: seq<byte>)
    ensures Retained(Tail(s) + data) == Retained(s + data)
  {
    hide CouldStart;
    var t, u, k := s + data, Tail(s) + data, |s| - Retained(s);
    assert u == t[k..];
    if Retained(t) >= |data| {
      StartWithoutEnd(s, data, Retained(t));
    }
    SameSuffix(t, k, Retained(t));
    SameSuffix(t, k, Retained(u));
  }

  lemma EmittedAndTail(s: seq<byte>)
    ensures Emitted(s) + Tail(s) == s && |Tail(s)| == Retained(s) <= 5
  {}

  lemma ShiftedFirst(s: seq<byte>, data: seq<byte>, i: nat)
    requires NoHeader(s) && IsFirst(Tail(s) + data, i)
    ensures var k := |s| - Retained(s);
      IsFirst(s + data, k + i) && ModeAt(s + data, k + i) == ModeAt(Tail(s) + data, i)
  {
    hide OccursAt, ModeAt, Retained;
    var k := |s| - Retained(s);
    ShiftedHeader(s, data, i);
    forall j: nat | j < i + k ensures !HeaderAt(s + data, j) {
      ShiftedHeader(s, data, j);
    }
  }

  /** One call keeps the account: what was emitted and what is held make up the stream, and the first
      header of the whole stream is the one that is found. */
  lemma ConsumeFollowsStream(s: seq<byte>, data: seq<byte>, d: Detection, after: seq<byte>)
    requires NoHeader(s) && Consumed(Tail(s), data, d, after)
    ensures d.mode.None? ==>
      NoHeader(s + data) && after == Tail(s + data) && Emitted(s) + d.terminal == Emitted(s + data)
    ensures d.mode.Some? ==>
      exists i: nat :: IsFirst(s + data, i) && d.mode == Some(ModeAt(s + data, i))
        && Emitted(s) + d.terminal == (s + data)[..i] && d.protocol == (s + data)[i..]
  {
    hide OccursAt, ModeAt, Retained;
    if NoHeader(Tail(s) + data) {
      NothingFound(s, data);
    } else {
      var u := Tail(s) + data;
      var i: nat :| IsFirst(u, i) && d == Detection(u[..i], Some(ModeAt(u, i)), u[i..]) && after == [];
      HeaderFound(s, data, i);
    }
  }

  lemma NothingFound(s: seq<byte>, data: seq<byte>)
    requires NoHeader(s) && NoHeader(Tail(s) + data)
    ensures NoHeader(s + data) && Tail(Tail(s) + data) == Tail(s + data)
    ensures Emitted(s) + Emitted(Tail(s) + data) == Emitted(s + data)
  {
    hide OccursAt, ModeAt, Retained;
    assert Tail(s) + data == (s + data)[|s| - Retained(s)..];
    forall i: nat ensures !HeaderAt(s + data, i) {
      ShiftedHeader(s, data, i);
    }
    SameTail(s, data);
  }

  lemma HeaderFound(s: seq<byte>, data: seq<byte>, i: nat)
    requires NoHeader(s) && IsFirst(Tail(s) + data, i) && i <= |Tail(s) + data|
    ensures var t, u, k := s + data, Tail(s) + data, |s| - Retained(s);
      && IsFirst(t, k + i) && ModeAt(t, k + i) == ModeAt(u, i)
      && k + i <= |t| && Emitted(s) + u[..i] == t[..k + i] && u[i..] == t[k + i..]
  {
    hide OccursAt, ModeAt, Retained;
    var t, u, k := s + data, Tail(s) + data, |s| - Retained(s);
    assert u == t[k..];
    ShiftedFirst(s, data, i);
    assert Emitted(s) + u[..i] == t[..k + i];
    assert u[i..] == t[k + i..];
  }

  /** The terminal gets exactly what an unchunked search would give it, however the stream is cut:
      up to the first header start, or all but the bytes that could still become one. */
  method Watch(chunks: seq<seq<byte>>) returns (terminal: seq<byte>, held: seq<byte>, mode: Option<Mode>,
                                                protocol: seq<byte>, read: nat)
    ensures read <= |chunks|
    ensures mode.None? ==>
      && NoHeader(Concat(chunks)) && read == |chunks|
      && terminal + held == Concat(chunks) && |held| <= 5
      && forall more: seq<byte>, i: nat :: HeaderAt(Concat(chunks) + more, i) ==> |terminal| <= i
    ensures mode.Some? ==>
      exists i: nat :: IsFirst(Concat(chunks), i) && mode == Some(ModeAt(Concat(chunks), i))
        && terminal == Concat(chunks)[..i] && protocol + Concat(chunks[read..]) == Concat(chunks)[i..]
  {
    hide OccursAt, ModeAt, Retained, Emitted, Tail;
    var detector := new HeaderDetector();
    EmittedAndTail([]);
    assert Concat(chunks[..0]) == [];
    terminal, mode, protocol, read := [], None, [], 0;
    while read < |chunks| && mode.None?
      invariant read <= |chunks|
      invariant mode.None? ==> NoHeader(Concat(chunks[..read]))
      invariant mode.None? ==> detector.buffer == Tail(Concat(chunks[..read]))
      invariant mode.None? ==> terminal == Emitted(Concat(chunks[..read]))
      invariant mode.Some? ==> exists i: nat :: var s := Concat(chunks[..read]);
        IsFirst(s, i) && mode == Some(ModeAt(s, i)) && terminal == s[..i] && protocol == s[i..]
    {
      ghost var s := Concat(chunks[..read]);
      var d := detector.Consume(chunks[read]);
      ConsumeFollowsStream(s, chunks[read], d, detector.buffer);
      ConcatSnoc(chunks, read);
      terminal, mode, protocol := terminal + d.terminal, d.mode, d.protocol;
      read := read + 1;
    }
    held := detector.buffer;
    ConcatSplit(chunks, read);
    ghost var s := Concat(chunks[..read]);
    EmittedAndTail(s);
    if mode.None? {
      assert chunks[..read] == chunks;
      forall more: seq<byte>, i: nat | HeaderAt(s + more, i) ensures |terminal| <= i {
        StartIsHeld(s, more, i);
      }
    } else {
      ghost var i: nat :| IsFirst(s, i) && mode == Some(ModeAt(s, i)) && terminal == s[..i] && protocol == s[i..];
      FirstStaysFirst(s, Concat(chunks[read..]), i);
    }
  }

  lemma FirstStaysFirst(s: seq<byte>, more: seq<byte>, i: nat)
    requires IsFirst(s, i)
    ensures IsFirst(s + more, i) && ModeAt(s + more, i) == ModeAt(s, i)
    ensures (s + more)[..i] == s[..i] && (s + more)[i..] == s[i..] + more
  {
    HeaderIsLocal(s, more, i);
    forall j: nat | j < i ensures !HeaderAt(s + more, j) {
      HeaderIsLocal(s, more, j);
    }
  }

  lemma {:induction false} ConcatSplit(chunks: seq<seq<byte>>, k: nat)
    requires k <= |chunks|
    ensures Concat(chunks[..k]) + Concat(chunks[k..]) == Concat(chunks)
    decreases k
  {
    if k == 0 {
      assert chunks[k..] == chunks;
    } else {
      ConcatSplit(chunks[1..], k - 1);
      assert chunks[..k][1..] == chunks[1..][..k - 1] && chunks[k..] == chunks[1..][k - 1..];
    }
  }

  lemma ConcatSnoc(chunks: seq<seq<byte>>, k: nat)
    requires k < |chunks|
    ensures Concat(chunks[..k + 1]) == Concat(chunks[..k]) + chunks[k]
  {
    var c := chunks[..k + 1];
    ConcatSplit(c, k);
    assert c[..k] == chunks[..k] && c[k..] == [chunks[k]];
    assert |c[k..]| == 1 && Concat(c[k..]) == chunks[k] + Concat(c[k..][1..]);
  }
}
