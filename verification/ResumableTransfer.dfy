/** Uploads and downloads that can be interrupted and resumed through a `.nyapart` file. Files are byte
    sequences; what the operating system and the network do is a script. */
module ResumableTransfer {
  import opened Bytes
  import opened Options

  const BUFFER: nat := 131072

  datatype Status = Queued | Running | Paused | Failed | Cancelled | Completed

  /** What happens to one round of the copying loop: the context may be cancelled, the read returns at most
      `room` bytes and may see the end together with them or fail, the write accepts some of them or fails. */
  datatype Chance = Chance(cancelled: bool, room: nat, eofWithData: bool, readFails: bool, accepted: nat, writeFails: bool)

  /** Which of the other operations fail. */
  datatype Faults = Faults(connect: bool, open: bool, truncate: bool, seek: bool, sync: bool, close: bool, rename: bool)

  function Min(a: nat, b: nat): nat { if a < b then a else b }

  // ----- files -----

  function Zeros(n: nat): seq<byte> { seq(n, i => 0) }

  /** Writing at a position: bytes before it stay, a gap is filled with zeros. */
  function WriteAt(content: seq<byte>, at: nat, data: seq<byte>): seq<byte> {
    if data == [] then content
    else if at > |content| then content + Zeros(at - |content|) + data
    else content[..at] + data + (if at + |data| < |content| then content[at + |data|..] else [])
  }

  lemma WriteAtEnd(content: seq<byte>, data: seq<byte>)
    ensures WriteAt(content, |content|, data) == content + data
  {
    if data != [] {
      assert content[..|content|] == content;
    }
  }

  lemma WriteInside(content: seq<byte>, at: nat, a: seq<byte>, b: seq<byte>)
    requires at <= |content| && a != [] && b != []
    ensures WriteAt(WriteAt(content, at, a), at + |a|, b) == WriteAt(content, at, a + b)
  {
    var once := WriteAt(content, at, a);
    var k := at + |a| + |b|;
    assert once[..at + |a|] == content[..at] + a;
    assert (content[..at] + a) + b == content[..at] + (a + b);
    if k < |content| {
      assert |once| == |content| && once[k..] == content[k..];
    } else {
      assert |once| <= k;
    }
  }

  lemma WriteTwice(content: seq<byte>, at: nat, a: seq<byte>, b: seq<byte>)
    ensures WriteAt(WriteAt(content, at, a), at + |a|, b) == WriteAt(content, at, a + b)
  {
    if a == [] {
      assert a + b == b;
    } else if b == [] {
      assert a + b == a;
    } else if at <= |content| {
      WriteInside(content, at, a, b);
    } else {
      var gap := content + Zeros(at - |content|);
      assert WriteAt(content, at, a) == gap + a && |gap + a| == at + |a|;
      WriteAtEnd(gap + a, b);
      assert (gap + a) + b == gap + (a + b);
    }
  }

  class Handle {
    var content: seq<byte>
    var position: nat

    constructor (content: seq<byte>, position: nat)
      ensures this.content == content && this.position == position
    {
      this.content, this.position := content, position;
    }

    method Write(data: seq<byte>)
      modifies this
      ensures content == WriteAt(old(content), old(position), data) && position == old(position) + |data|
    {
      content := WriteAt(content, position, data);
      position := position + |data|;
    }

    /** Truncating does not move the position. */
    method Truncate()
      modifies this`content
      ensures content == []
    {
      content := [];
    }
  }

  // ----- copying -----

  datatype Copy = Copy(written: nat, finished: bool)

  function CountRead(source: seq<byte>, at: nat, c: Chance): (n: nat)
    ensures n <= BUFFER && (at <= |source| ==> at + n <= |source|)
  {
    if at >= |source| then 0 else Min(Min(c.room, BUFFER), |source| - at)
  }

  /** How far copying from `at` gets. An exhausted script is a process that was killed. */
  function Copied(source: seq<byte>, at: nat, script: seq<Chance>): (r: Copy)
    ensures at <= |source| ==> at + r.written <= |source|
    ensures at <= |source| && r.finished ==> at + r.written == |source|
    decreases |script|
  {
    if script == [] || script[0].cancelled then Copy(0, false)
    else
      var c := script[0];
      var count := CountRead(source, at, c);
      var output := Min(c.accepted, count);
      if count > 0 && (c.writeFails || output != count) then Copy(output, false)
      else if at + count >= |source| && (count == 0 || c.eofWithData) then Copy(count, true)
      else if c.readFails then Copy(count, false)
      else
        var rest := Copied(source, at + count, script[1..]);
        Copy(count + rest.written, rest.finished)
  }

  class Job {
    var status: Status
    var bytesDone: nat
    var totalBytes: nat

    constructor (total: nat)
      ensures status == Queued && bytesDone == 0 && totalBytes == total
    {
      status, bytesDone, totalBytes := Queued, 0, total;
    }

    method SetProgress(done: nat, total: nat)
      modifies this`bytesDone, this`totalBytes
      ensures bytesDone == done && totalBytes == total
    {
      bytesDone, totalBytes := done, total;
    }

    method AddProgress(n: nat)
      modifies this`bytesDone
      ensures bytesDone == old(bytesDone) + n
    {
      bytesDone := bytesDone + n;
    }
  }

  /** The `n` bytes of the source from `at` on; beyond its end there are none. */
  function Piece(source: seq<byte>, at: nat, n: nat): seq<byte> { if at + n <= |source| then source[at..at + n] else [] }

  /** Pieces of one source follow each other. */
  lemma Pieces(source: seq<byte>, at: nat, n: nat, m: nat)
    requires at + n + m <= |source|
    ensures Piece(source, at, n) + Piece(source, at + n, m) == Piece(source, at, n + m)
    ensures |Piece(source, at, n)| == n
  {}

  /** One write that follows what was copied since position `at`, and its progress. */
  method WritePiece(target: Handle, source: seq<byte>, read: nat, n: nat, job: Job,
                    ghost first: seq<byte>, ghost start: nat, ghost at: nat)
    requires at <= read && read + n <= |source|
    requires target.content == WriteAt(first, start, Piece(source, at, read - at)) && target.position == start + (read - at)
    modifies target, job`bytesDone
    ensures target.content == WriteAt(first, start, Piece(source, at, read + n - at))
    ensures target.position == start + (read + n - at)
    ensures job.bytesDone == old(job.bytesDone) + n
  {
    hide WriteAt, Piece;
    Pieces(source, at, read - at, n);
    WriteTwice(first, start, Piece(source, at, read - at), Piece(source, read, n));
    PieceLength(source, read, n);
    target.Write(Piece(source, read, n));
    job.AddProgress(n);
  }

  /** Copies from position `at` of the source until its end, an error or the end of the script. The target
      gets a contiguous piece of the source, and the progress counts it. */
  method CopyTransfer(script: seq<Chance>, target: Handle, source: seq<byte>, at: nat, job: Job) returns (finished: bool)
    modifies target, job`bytesDone
    ensures finished == Copied(source, at, script).finished
    ensures var n := Copied(source, at, script).written;
      && target.content == WriteAt(old(target.content), old(target.position), Piece(source, at, n))
      && job.bytesDone == old(job.bytesDone) + n
  {
    hide WriteAt, Piece, Copied;
    var read, round := at, 0;
    ghost var all := Copied(source, at, script);
    assert script[0..] == script;
    WriteNothing(target.content, target.position);
    NoPiece(source, at);
    while round < |script| && !script[round].cancelled
      invariant at <= read && round <= |script| && (read == at || read <= |source|)
      invariant target.content == WriteAt(old(target.content), old(target.position), Piece(source, at, read - at))
      invariant target.position == old(target.position) + (read - at)
      invariant job.bytesDone == old(job.bytesDone) + (read - at)
      invariant var rest := Copied(source, read, script[round..]);
        all.written == read - at + rest.written && all.finished == rest.finished
    {
      var c := script[round];
      CopiedUnfold(source, read, script, round);
      var count := CountRead(source, read, c);
      if count > 0 {
        var output := Min(c.accepted, count);
        WritePiece(target, source, read, output, job, old(target.content), old(target.position), at);
        if c.writeFails || output != count {
          return false;
        }
        read := read + count;
      }
      if read >= |source| && (count == 0 || c.eofWithData) {
        return true;
      }
      if c.readFails {
        return false;
      }
      round := round + 1;
    }
    CopiedStops(source, read, script, round);
    finished := false;
  }

  lemma CopiedUnfold(source: seq<byte>, read: nat, script: seq<Chance>, round: nat)
    requires round < |script| && !script[round].cancelled
    ensures var c := script[round]; var count := CountRead(source, read, c);
      Copied(source, read, script[round..]) ==
        if count > 0 && (c.writeFails || Min(c.accepted, count) != count) then Copy(Min(c.accepted, count), false)
        else if read + count >= |source| && (count == 0 || c.eofWithData) then Copy(count, true)
        else if c.readFails then Copy(count, false)
        else var rest := Copied(source, read + count, script[round + 1..]); Copy(count + rest.written, rest.finished)
  {
    assert script[round..][1..] == script[round + 1..];
  }

  lemma CopiedStops(source: seq<byte>, read: nat, script: seq<Chance>, round: nat)
    requires round == |script| || (round < |script| && script[round].cancelled)
    ensures Copied(source, read, script[round..]) == Copy(0, false)
  {}

  lemma WriteNothing(content: seq<byte>, at: nat)
    ensures WriteAt(content, at, []) == content
  {}

  lemma NoPiece(source: seq<byte>, at: nat)
    ensures Piece(source, at, 0) == []
  {}

  lemma PieceLength(source: seq<byte>, at: nat, n: nat)
    requires at + n <= |source|
    ensures |Piece(source, at, n)| == n
  {}

  // ----- one upload, one download -----

  /** The `.nyapart` file and the destination. */
  datatype Disk = Disk(part: Option<seq<byte>>, dest: Option<seq<byte>>)

  datatype Progress = Progress(done: nat, total: nat)

  datatype Ran = Ran(disk: Disk, progress: Progress, ok: bool)

  function Existing(d: Disk): seq<byte> { if d.part.Some? then d.part.value else [] }

  /** Renaming the finished file; an existing destination is removed first. */
  function Publish(d: Disk, overwrite: bool, content: seq<byte>, f: Faults, p: Progress): Ran {
    var cleared := if overwrite then d.(dest := None) else d;
    if f.rename then Ran(cleared, p, false) else Ran(Disk(None, Some(content)), p, true)
  }

  function UploadOffset(d: Disk, total: nat): nat { if |Existing(d)| <= total then |Existing(d)| else 0 }

  function Upload(source: seq<byte>, d: Disk, p: Progress, overwrite: bool, f: Faults, script: seq<Chance>): Ran {
    var at := UploadOffset(d, p.total);
    if f.connect || (!overwrite && d.dest.Some?) || f.open then Ran(d, p, false)
    else if at == 0 && f.truncate then Ran(d.(part := Some(Existing(d))), p, false)
    else
      var before := if at == 0 then [] else Existing(d);
      if f.seek then Ran(d.(part := Some(before)), p, false)
      else
        var c := Copied(source, at, script);
        var content := WriteAt(before, at, Piece(source, at, c.written));
        var copied, q := d.(part := Some(content)), Progress(at + c.written, p.total);
        if !c.finished || f.close then Ran(copied, q, false) else Publish(copied, overwrite, content, f, q)
  }

  function Download(source: seq<byte>, d: Disk, p: Progress, overwrite: bool, f: Faults, script: seq<Chance>): Ran {
    var position := |Existing(d)|;
    if f.connect || (!overwrite && d.dest.Some?) || f.open then Ran(d, p, false)
    else if position > |source| && f.truncate then Ran(d.(part := Some(Existing(d))), p, false)
    else
      var before := if position > |source| then [] else Existing(d);
      if f.seek then Ran(d.(part := Some(before)), p, false)
      else
        var c := Copied(source, |before|, script);
        var content := WriteAt(before, position, Piece(source, |before|, c.written));
        var copied, q := d.(part := Some(content)), Progress(|before| + c.written, |source|);
        if !c.finished || f.sync || f.close then Ran(copied, q, false) else Publish(copied, overwrite, content, f, q)
  }

  method RunUpload(source: seq<byte>, disk: Disk, job: Job, overwrite: bool, f: Faults, script: seq<Chance>)
    returns (after: Disk, ok: bool)
    modifies job`bytesDone, job`totalBytes
    ensures Ran(after, Progress(job.bytesDone, job.totalBytes), ok) ==
      Upload(source, disk, old(Progress(job.bytesDone, job.totalBytes)), overwrite, f, script)
  {
    hide WriteAt, Piece, Copied;
    after, ok := disk, false;
    if f.connect {
      return;
    }
    var offset := 0;
    if disk.part.Some? {
      offset := |disk.part.value|;
      if offset > job.totalBytes {
        offset := 0;
      }
    }
    if !overwrite && disk.dest.Some? {
      return;
    }
    if f.open {
      return;
    }
    var target := new Handle(Existing(disk), 0);
    after := after.(part := Some(target.content));
    if offset == 0 {
      if f.truncate {
        return;
      }
      target.Truncate();
    }
    after := after.(part := Some(target.content));
    if f.seek {
      return;
    }
    target.position := offset;
    job.SetProgress(offset, job.totalBytes);
    var finished := CopyTransfer(script, target, source, offset, job);
    after := after.(part := Some(target.content));
    if !finished || f.close {
      return;
    }
    if overwrite {
      after := after.(dest := None);
    }
    if f.rename {
      return;
    }
    after, ok := Disk(None, after.part), true;
  }

  method RunDownload(source: seq<byte>, disk: Disk, job: Job, overwrite: bool, f: Faults, script: seq<Chance>)
    returns (after: Disk, ok: bool)
    modifies job`bytesDone, job`totalBytes
    ensures Ran(after, Progress(job.bytesDone, job.totalBytes), ok) ==
      Download(source, disk, old(Progress(job.bytesDone, job.totalBytes)), overwrite, f, script)
  {
    hide WriteAt, Piece, Copied;
    after, ok := disk, false;
    if f.connect || (!overwrite && disk.dest.Some?) || f.open {
      return;
    }
    var target := new Handle(Existing(disk), |Existing(disk)|);
    after := after.(part := Some(target.content));
    var offset := target.position;
    if offset > |source| {
      if f.truncate {
        return;
      }
      target.Truncate();
      offset := 0;
    }
    after := after.(part := Some(target.content));
    if f.seek {
      return;
    }
    job.SetProgress(offset, |source|);
    var finished := CopyTransfer(script, target, source, offset, job);
    after := after.(part := Some(target.content));
    if !finished || f.sync || f.close {
      return;
    }
    if overwrite {
      after := after.(dest := None);
    }
    if f.rename {
      return;
    }
    after, ok := Disk(None, after.part), true;
  }

  // ----- when a run delivers the source -----

  predicate IsPrefix(a: seq<byte>, b: seq<byte>) { |a| <= |b| && b[..|a|] == a }

  /** A run that starts from a prefix, at its end, keeps a prefix, and the progress is its length. */
  lemma CopyExtendsPrefix(before: seq<byte>, source: seq<byte>, script: seq<Chance>)
    requires IsPrefix(before, source)
    ensures var c := Copied(source, |before|, script);
      var content := WriteAt(before, |before|, Piece(source, |before|, c.written));
      && IsPrefix(content, source) && |content| == |before| + c.written
      && (c.finished ==> content == source)
  {
    hide Copied;
    var n := Copied(source, |before|, script).written;
    WriteAtEnd(before, Piece(source, |before|, n));
    assert source[..|before|] + source[|before|..|before| + n] == source[..|before| + n];
  }

  /** An upload that succeeds leaves the source at the destination exactly when it found a prefix of it,
      or something too long, which it starts over. */
  lemma UploadDelivers(source: seq<byte>, d: Disk, p: Progress, overwrite: bool, f: Faults, script: seq<Chance>)
    requires p.total == |source|
    requires Upload(source, d, p, overwrite, f, script).ok
    ensures Upload(source, d, p, overwrite, f, script).disk.part.None?
    ensures Upload(source, d, p, overwrite, f, script).disk.dest == Some(source) <==>
      IsPrefix(Existing(d), source) || |Existing(d)| > |source|
  {
    hide Copied;
    var at := UploadOffset(d, p.total);
    var before := if at == 0 then [] else Existing(d);
    var n := Copied(source, at, script).written;
    WriteAtEnd(before, Piece(source, at, n));
    assert at + n == |source| && Piece(source, at, n) == source[at..];
    assert Upload(source, d, p, overwrite, f, script).disk.dest == Some(before + source[at..]);
    if before + source[at..] == source {
      assert source[..|before|] == before;
    }
    if IsPrefix(before, source) {
      assert source[..|before|] + source[|before|..] == source;
    }
  }

  /** A download that succeeds leaves a source with content at the destination exactly when it found a prefix.
      A longer partial file is cut, but writing goes on at its old end: a gap of zeros remains. */
  lemma DownloadDelivers(source: seq<byte>, d: Disk, p: Progress, overwrite: bool, f: Faults, script: seq<Chance>)
    requires Download(source, d, p, overwrite, f, script).ok
    ensures Download(source, d, p, overwrite, f, script).disk.part.None?
    ensures Download(source, d, p, overwrite, f, script).disk.dest == Some(source) <==>
      IsPrefix(Existing(d), source) || source == []
    ensures |Existing(d)| > |source| > 0 ==>
      Download(source, d, p, overwrite, f, script).disk.dest == Some(Zeros(|Existing(d)|) + source)
  {
    hide Copied;
    var position := |Existing(d)|;
    var before := if position > |source| then [] else Existing(d);
    var n := Copied(source, |before|, script).written;
    var r := Download(source, d, p, overwrite, f, script);
    assert n == |source| - |before|;
    if position > |source| {
      assert Piece(source, 0, n) == source;
      assert source != [] ==> WriteAt([], position, source) == Zeros(position) + source;
    } else {
      WriteAtEnd(before, Piece(source, |before|, n));
      assert Piece(source, |before|, n) == source[|before|..];
      assert r.disk.dest == Some(before + source[|before|..]);
      if before + source[|before|..] == source {
        assert source[..|before|] == before;
      }
    }
  }

  /** A run succeeds exactly if the destination may be written, no operation that it needs fails, and the copy comes to
      its end. Truncating is needed to start over, and syncing only after a download. */
  lemma UploadSucceedsIff(source: seq<byte>, d: Disk, p: Progress, overwrite: bool, f: Faults, script: seq<Chance>)
    ensures var at := if |Existing(d)| <= p.total then |Existing(d)| else 0;
      Upload(source, d, p, overwrite, f, script).ok <==>
        && (overwrite || d.dest.None?) && !f.connect && !f.open && (at == 0 ==> !f.truncate) && !f.seek
        && Copied(source, at, script).finished && !f.close && !f.rename
  {
    hide Copied, WriteAt, Piece;
  }

  lemma DownloadSucceedsIff(source: seq<byte>, d: Disk, p: Progress, overwrite: bool, f: Faults, script: seq<Chance>)
    ensures var at := if |Existing(d)| <= |source| then |Existing(d)| else 0;
      Download(source, d, p, overwrite, f, script).ok <==>
        && (overwrite || d.dest.None?) && !f.connect && !f.open && (|Existing(d)| > |source| ==> !f.truncate) && !f.seek
        && Copied(source, at, script).finished && !f.sync && !f.close && !f.rename
  {
    hide Copied, WriteAt, Piece;
  }

  // ----- a transfer over its whole life -----

  datatype World = World(status: Status, progress: Progress, disk: Disk)

  /** A run of the transfer with everything that happens to it, or a request between runs. `request` is the
      pause or cancellation that arrives while the run is under way. */
  datatype Action =
    | Run(request: Option<Status>, f: Faults, script: seq<Chance>, keepsPart: bool)
    | Pause
    | Resume
    | Cancel

  datatype TransferSpec = TransferSpec(source: seq<byte>, upload: bool, overwrite: bool)

  function RunOnce(spec: TransferSpec, w: World, f: Faults, script: seq<Chance>): Ran {
    if spec.upload then Upload(spec.source, w.disk, w.progress, spec.overwrite, f, script)
    else Download(spec.source, w.disk, w.progress, spec.overwrite, f, script)
  }

  /** How a run ends: a request decides the status, then the error, then success. A cancelled transfer
      removes its partial file, unless that fails too. */
  function Ended(w: World, ran: Ran, request: Option<Status>, keepsPart: bool): World {
    if request == Some(Paused) then World(Paused, ran.progress, ran.disk)
    else if request == Some(Cancelled) then
      World(Cancelled, ran.progress, if keepsPart then ran.disk else ran.disk.(part := None))
    else if !ran.ok then World(Failed, ran.progress, ran.disk)
    else World(Completed, ran.progress.(done := ran.progress.total), ran.disk)
  }

  function Act(spec: TransferSpec, w: World, a: Action): World {
    match a
    case Run(request, f, script, keepsPart) =>
      if !w.status.Queued? then w else Ended(w, RunOnce(spec, w, f, script), request, keepsPart)
    case Pause => if w.status.Queued? || w.status.Running? then w.(status := Paused) else w
    case Resume => if w.status.Paused? || w.status.Failed? then w.(status := Queued) else w
    case Cancel => if w.status.Completed? then w else w.(status := Cancelled)
  }

  function Life(spec: TransferSpec, w: World, actions: seq<Action>): World
    decreases |actions|
  {
    if actions == [] then w else Life(spec, Act(spec, w, actions[0]), actions[1..])
  }

  ghost function WorldOf(job: Job, disk: Disk): World
    reads job
  {
    World(job.status, Progress(job.bytesDone, job.totalBytes), disk)
  }

  /** `cancels` tells whether the context of a run is cancelled. */
  method PauseTransfer(job: Job, disk: Disk) returns (ok: bool, cancels: bool)
    modifies job`status
    ensures WorldOf(job, disk) == Act(TransferSpec([], true, true), old(WorldOf(job, disk)), Pause)
    ensures (ok <==> old(job.status).Queued? || old(job.status).Running?) && (cancels <==> old(job.status).Running?)
  {
    ok, cancels := job.status.Queued? || job.status.Running?, job.status.Running?;
    if ok {
      job.status := Paused;
    }
  }

  method ResumeTransfer(job: Job, disk: Disk) returns (ok: bool)
    modifies job`status
    ensures WorldOf(job, disk) == Act(TransferSpec([], true, true), old(WorldOf(job, disk)), Resume)
    ensures ok <==> old(job.status).Paused? || old(job.status).Failed?
  {
    ok := job.status.Paused? || job.status.Failed?;
    if ok {
      job.status := Queued;
    }
  }

  method CancelTransfer(job: Job, disk: Disk) returns (cancels: bool)
    modifies job`status
    ensures WorldOf(job, disk) == Act(TransferSpec([], true, true), old(WorldOf(job, disk)), Cancel)
    ensures cancels <==> old(job.status).Running?
  {
    cancels := job.status.Running?;
    match job.status
    case Completed | Cancelled =>
    case _ => job.status := Cancelled;
  }

  method RunTransfer(spec: TransferSpec, job: Job, disk: Disk, request: Option<Status>, f: Faults,
                     script: seq<Chance>, keepsPart: bool)
    returns (after: Disk)
    requires request.Some? ==> request.value.Paused? || request.value.Cancelled?
    modifies job
    ensures WorldOf(job, after) == Act(spec, old(WorldOf(job, disk)), Run(request, f, script, keepsPart))
  {
    hide Upload, Download;
    if !job.status.Queued? {
      return disk;
    }
    job.status := Running;
    var ok;
    if spec.upload {
      after, ok := RunUpload(spec.source, disk, job, spec.overwrite, f, script);
    } else {
      after, ok := RunDownload(spec.source, disk, job, spec.overwrite, f, script);
    }
    // a request that arrived while the run was under way
    if request.Some? {
      job.status := request.value;
    }
    if job.status.Paused? {
      return;
    }
    if job.status.Cancelled? {
      if !keepsPart {
        after := after.(part := None);
      }
    } else if !ok {
      job.status := Failed;
    } else {
      job.status := Completed;
      job.bytesDone := job.totalBytes;
    }
  }

  /** `first` is what was at the destination before the transfer. */
  ghost predicate Sound(spec: TransferSpec, w: World, first: Option<seq<byte>>) {
    && IsPrefix(Existing(w.disk), spec.source)
    && (spec.upload ==> w.progress.total == |spec.source|)
    && (w.disk.dest == first || w.disk.dest.None? || w.disk.dest == Some(spec.source))
    && (w.status.Completed? ==>
          && w.disk.dest == Some(spec.source) && w.disk.part.None?
          && w.progress == Progress(|spec.source|, |spec.source|))
  }

  lemma RunKeepsPrefix(spec: TransferSpec, w: World, f: Faults, script: seq<Chance>, first: Option<seq<byte>>)
    requires Sound(spec, w, first)
    ensures var r := RunOnce(spec, w, f, script);
      && IsPrefix(Existing(r.disk), spec.source)
      && (spec.upload ==> r.progress.total == |spec.source|)
      && (r.disk.dest == first || r.disk.dest.None? || r.disk.dest == Some(spec.source))
      && (r.ok ==> r.disk == Disk(None, Some(spec.source)) && r.progress.total == |spec.source|)
  {
    hide WriteAt, Piece, Copied;
    var before := Existing(w.disk);
    CopyExtendsPrefix(before, spec.source, script);
    CopyExtendsPrefix([], spec.source, script);
  }

  /** Interrupted any number of times, by a pause, a cancelled context, a failure or a killed process, and
      resumed: the partial file is always a prefix of the source, the destination holds what it held before,
      nothing, or the whole source, and a completed transfer has delivered the source. */
  lemma {:induction false} LifeIsSound(spec: TransferSpec, w: World, actions: seq<Action>, first: Option<seq<byte>>)
    requires Sound(spec, w, first)
    ensures Sound(spec, Life(spec, w, actions), first)
    decreases |actions|
  {
    hide RunOnce;
    if actions != [] {
      var a := actions[0];
      if a.Run? {
        RunKeepsPrefix(spec, w, a.f, a.script, first);
      }
      LifeIsSound(spec, Act(spec, w, a), actions[1..], first);
    }
  }

  /** A cancelled transfer stays cancelled, and nothing touches its files any more; a completed one stays completed. */
  lemma {:induction false} EndIsFinal(spec: TransferSpec, w: World, actions: seq<Action>)
    requires w.status.Cancelled? || w.status.Completed?
    ensures Life(spec, w, actions) == w
    decreases |actions|
  {
    if actions != [] {
      EndIsFinal(spec, w, actions[1..]);
    }
  }

  /** Which requests are granted in which state, between runs. */
  lemma RequestsGranted(spec: TransferSpec, w: World)
    ensures Act(spec, w, Pause) == w.(status := if w.status in {Queued, Running} then Paused else w.status)
    ensures Act(spec, w, Resume) == w.(status := if w.status in {Paused, Failed} then Queued else w.status)
    ensures Act(spec, w, Cancel) == w.(status := if w.status == Completed then Completed else Cancelled)
  {}

  /** Only a queued transfer runs. A pause during the run keeps the partial file, a cancellation removes it, also when
      the copy itself came to its end. */
  lemma RequestDecides(spec: TransferSpec, w: World, request: Option<Status>, f: Faults, script: seq<Chance>)
    ensures var v, r := Act(spec, w, Run(request, f, script, false)), RunOnce(spec, w, f, script);
      if !w.status.Queued? then v == w
      else if request == Some(Paused) then v.status.Paused? && v.disk == r.disk && v.progress == r.progress
      else if request == Some(Cancelled) then v.status.Cancelled? && v.disk.part.None? && v.disk.dest == r.disk.dest
      else v.disk == r.disk && v.status == (if r.ok then Completed else Failed)
  {
    hide RunOnce;
  }

  // ----- when a resumed transfer completes -----

  const NO_FAULTS := Faults(false, false, false, false, false, false, false)

  /** Copying the rest, behind what the partial file holds, comes to its end. */
  predicate Finishes(spec: TransferSpec, w: World, script: seq<Chance>) {
    Copied(spec.source, |Existing(w.disk)|, script).finished
  }

  /** The destination is free, or may be replaced. */
  predicate MayPublish(spec: TransferSpec, w: World) { spec.overwrite || w.disk.dest.None? }

  /** Nothing goes wrong in the round, and it makes progress. */
  predicate Willing(c: Chance) {
    !c.cancelled && c.room > 0 && !c.readFails && !c.writeFails && c.accepted >= BUFFER
  }

  /** Enough rounds in which nothing goes wrong finish the copy. */
  lemma {:induction false} WillingFinishes(source: seq<byte>, at: nat, script: seq<Chance>)
    requires at <= |source| && |script| > |source| - at && forall c :: c in script ==> Willing(c)
    ensures Copied(source, at, script).finished
    decreases |script|
  {
    var c := script[0];
    assert c in script;
    var count := CountRead(source, at, c);
    if !(at + count >= |source| && (count == 0 || c.eofWithData)) {
      WillingFinishes(source, at + count, script[1..]);
    }
  }

  /** A run without faults that finishes the copy completes the transfer exactly if the destination is free or
      may be replaced. */
  lemma CompletesIffMayPublish(spec: TransferSpec, w: World, script: seq<Chance>, keepsPart: bool,
                               first: Option<seq<byte>>)
    requires Sound(spec, w, first) && w.status.Queued? && Finishes(spec, w, script)
    ensures Act(spec, w, Run(None, NO_FAULTS, script, keepsPart)).status.Completed? <==> MayPublish(spec, w)
    ensures !MayPublish(spec, w) ==>
      Act(spec, w, Run(None, NO_FAULTS, script, keepsPart)) == w.(status := Failed)
  {
    hide WriteAt, Piece, Copied;
  }

  /** So after any life that left it paused or failed, resuming it completes it exactly if the destination is
      free or may be replaced; a run with one round more than bytes are missing is long enough. */
  lemma ResumedCompletesIff(spec: TransferSpec, w: World, actions: seq<Action>, script: seq<Chance>, keepsPart: bool,
                            first: Option<seq<byte>>)
    requires Sound(spec, w, first)
    requires var v := Life(spec, w, actions);
      && (v.status.Paused? || v.status.Failed?)
      && |script| > |spec.source| - |Existing(v.disk)| && forall c :: c in script ==> Willing(c)
    ensures var v := Life(spec, w, actions);
      Life(spec, v, [Resume, Run(None, NO_FAULTS, script, keepsPart)]).status.Completed? <==> MayPublish(spec, v)
  {
    hide RunOnce, Copied, Ended;
    var v := Life(spec, w, actions);
    LifeIsSound(spec, w, actions, first);
    WillingFinishes(spec.source, |Existing(v.disk)|, script);
    var queued := Act(spec, v, Resume);
    CompletesIffMayPublish(spec, queued, script, keepsPart, first);
    TwoActions(spec, v, Resume, Run(None, NO_FAULTS, script, keepsPart));
  }

  lemma TwoActions(spec: TransferSpec, w: World, a: Action, b: Action)
    ensures Life(spec, w, [a, b]) == Act(spec, Act(spec, w, a), b)
  {
    hide Act;
    assert [a, b][1..] == [b] && [b][1..] == [];
    assert Life(spec, Act(spec, Act(spec, w, a), b), []) == Act(spec, Act(spec, w, a), b);
  }

  /** A pause during a run. If the destination was free and may not be replaced, resuming completes the transfer
      exactly if the pause arrived before the file was delivered: when it arrives after the last byte, the
      delivered file itself stands in the way of a transfer that still counts as paused. */
  lemma PausedTooLate(spec: TransferSpec, w: World, f: Faults, script: seq<Chance>, again: seq<Chance>, keepsPart: bool,
                      first: Option<seq<byte>>)
    requires Sound(spec, w, first) && w.status.Queued? && !spec.overwrite && w.disk.dest.None?
    requires |again| > |spec.source| && forall c :: c in again ==> Willing(c)
    ensures var paused := Act(spec, w, Run(Some(Paused), f, script, true));
      && paused.status.Paused? && paused.disk == RunOnce(spec, w, f, script).disk
      && (Life(spec, paused, [Resume, Run(None, NO_FAULTS, again, keepsPart)]).status.Completed? <==>
            !RunOnce(spec, w, f, script).ok)
  {
    hide RunOnce, Copied;
    var a := Run(Some(Paused), f, script, true);
    assert [a][1..] == [];
    assert Life(spec, w, [a]) == Act(spec, w, a) by {
      assert Life(spec, Act(spec, w, a), []) == Act(spec, w, a);
    }
    DeliversIffOk(spec, w, f, script);
    ResumedCompletesIff(spec, w, [a], again, keepsPart, first);
  }

  /** Without permission to overwrite, the destination comes into being exactly with a successful run. */
  lemma DeliversIffOk(spec: TransferSpec, w: World, f: Faults, script: seq<Chance>)
    requires !spec.overwrite && w.disk.dest.None?
    ensures RunOnce(spec, w, f, script).disk.dest.Some? <==> RunOnce(spec, w, f, script).ok
  {
    hide WriteAt, Piece, Copied;
  }

  // ----- the progress counts the partial file -----

  /** BytesDone is the length of the partial file; or the whole file was delivered and nothing copied since. */
  predicate Counts(spec: TransferSpec, w: World) {
    || w.progress.done == |Existing(w.disk)|
    || (Existing(w.disk) == [] && w.disk.dest == Some(spec.source) && w.progress.done == |spec.source|)
  }

  /** The run gets as far as copying. */
  predicate ReachesCopy(spec: TransferSpec, w: World, a: Action) {
    && a.Run? && w.status.Queued? && MayPublish(spec, w) && !a.f.connect && !a.f.open && !a.f.seek
    && (spec.upload && |Existing(w.disk)| == 0 ==> !a.f.truncate)
  }

  predicate EverReachesCopy(spec: TransferSpec, w: World, actions: seq<Action>)
    decreases |actions|
  {
    actions != [] && (ReachesCopy(spec, w, actions[0]) || EverReachesCopy(spec, Act(spec, w, actions[0]), actions[1..]))
  }

  lemma RunCounts(spec: TransferSpec, w: World, a: Action, first: Option<seq<byte>>)
    requires Sound(spec, w, first) && a.Run? && w.status.Queued?
    requires Counts(spec, w) || ReachesCopy(spec, w, a)
    ensures var r := RunOnce(spec, w, a.f, a.script); Counts(spec, World(w.status, r.progress, r.disk))
    ensures var r := RunOnce(spec, w, a.f, a.script);
      r.ok ==> r.disk.part.None? && r.disk.dest == Some(spec.source) && r.progress == Progress(|spec.source|, |spec.source|)
  {
    hide WriteAt, Piece, Copied;
    RunKeepsPrefix(spec, w, a.f, a.script, first);
    CopyExtendsPrefix(Existing(w.disk), spec.source, a.script);
    CopyExtendsPrefix([], spec.source, a.script);
  }

  /** From the first run that reaches the copy on, whatever happens: unless the transfer is cancelled, BytesDone is
      the length of the partial file, or the file was delivered and nothing copied since. */
  lemma {:induction false} LifeCounts(spec: TransferSpec, w: World, actions: seq<Action>, first: Option<seq<byte>>)
    requires Sound(spec, w, first)
    requires w.status.Cancelled? || Counts(spec, w) || EverReachesCopy(spec, w, actions)
    ensures var v := Life(spec, w, actions); v.status.Cancelled? || Counts(spec, v)
    decreases |actions|
  {
    hide RunOnce;
    if actions != [] {
      var a := actions[0];
      if a.Run? && w.status.Queued? {
        RunKeepsPrefix(spec, w, a.f, a.script, first);
        if Counts(spec, w) || ReachesCopy(spec, w, a) {
          RunCounts(spec, w, a, first);
        }
      }
      LifeCounts(spec, Act(spec, w, a), actions[1..], first);
    }
  }
}
