/** What becomes of local edits when the server hands the device's own push out again, before or after another
    device's record about the same entity. */
module SyncEchoes {
  import opened Options
  import opened VersionVectors
  import opened FieldMerge
  import opened FieldMergeLaws
  import opened SyncSpec
  import opened SyncSafety
  import opened SyncEnvelope
  import opened Sync
  import opened SyncRuns
  import opened SyncEdits

  // ----- the own push -----

  /** The device's own push of the entity, as the server hands it out again. */
  function OwnPush(cfg: Config, st: State, device: DeviceId, id: EntityId, recordId: string): ServerRecord
    requires id in st.vault && st.vault[id].data.Members?
  {
    var row := st.vault[id];
    OutgoingRecord(cfg.key, recordId, row.kind, id, row.data, PushedState(st.Known(id), row.data.members, device))
      .(deviceId := device)
  }

  /** The row can be pushed: its kind is synchronized field by field, its counter has room, its field clocks are
      within its clock. */
  ghost predicate CanPush(cfg: Config, st: State, device: DeviceId, id: EntityId) {
    && id in st.vault && st.vault[id].data.Members? && st.vault[id].kind in cfg.allowed && st.vault[id].kind != CREDENTIAL
    && BoundedBy(st.Known(id).fields, st.Known(id).vector)
    && Get(st.Known(id).vector, device) >= 0 && Room(st, device, id)
  }

  /** Merging with the own envelope gives the own text with the clocks of the push. */
  lemma OwnEnvelopeWins(members: Object, known: Fields, past: Vector, vector: Vector, writer: DeviceId)
    requires BoundedBy(known, past) && Less(past, vector) && Positive(vector)
    ensures var pushed := Document(members, EnvelopeFields(members, known, vector, writer));
      Merge(Document(members, known), pushed) == pushed
  {
    hide Merge, MergeCell, Less, BoundedBy;
    var local, pushed := Document(members, known), Document(members, EnvelopeFields(members, known, vector, writer));
    forall name ensures CellOf(Merge(local, pushed), name) == CellOf(pushed, name) {
      OwnCellWins(members, known, past, vector, writer, name);
    }
    SameCells(Merge(local, pushed), pushed);
  }

  lemma OwnCellWins(members: Object, known: Fields, past: Vector, vector: Vector, writer: DeviceId, name: string)
    requires BoundedBy(known, past) && Less(past, vector) && Positive(vector)
    ensures var pushed := Document(members, EnvelopeFields(members, known, vector, writer));
      MergeCell(CellOf(Document(members, known), name), CellOf(pushed, name)) == CellOf(pushed, name)
  {
    hide Leq, Compare;
    assert Cloned(vector) == vector;
    if name in known {
      LeqThenLess(known[name].vector, past, vector);
      CompareExact(known[name].vector, vector);
      SelfIsNoWinner(known[name]);
    }
  }

  lemma SelfIsNoWinner(x: FieldState)
    ensures !Beats(x, x)
  {
    PrecedesIsTotal(x.writer, x.writer);
  }

  /** What is known after the own push has come back: the row as it is, with the clocks of the push. */
  lemma OwnPushSettles(cfg: Config, st: State, t: Tally, device: DeviceId, id: EntityId, recordId: string,
                       copy: EntityId)
    requires CanPush(cfg, st, device, id) && LocalOf(st, id) == Some(st.vault[id].data)
    ensures var o, rs := Step(cfg, st, t, OwnPush(cfg, st, device, id, recordId), copy),
                         PushedState(st.Known(id), st.vault[id].data.members, device);
      && o.err.None? && o.state.vault == st.vault && LocalOf(o.state, id) == LocalOf(st, id)
      && o.state.Known(id).vector == rs.vector && o.state.Known(id).fields == rs.fields
  {
    hide Step, Merge, Merged, Normalized, Compare, Less, BoundedBy, EnvelopeFields, Incremented, Seeded,
         MaxCounter, LocallyChanged;
    var r, known := OwnPush(cfg, st, device, id, recordId), st.Known(id);
    var rs := PushedState(known, st.vault[id].data.members, device);
    OwnPushIsNews(cfg, st, device, id, recordId);
    if IsConcurrent(st, r) {
      MergeStep(cfg, st, t, r, copy);
      OwnEnvelopeWins(st.vault[id].data.members, known.fields, known.vector, rs.vector, device);
    } else {
      PlainStep(cfg, st, t, r, copy);
    }
  }

  lemma PlainStep(cfg: Config, st: State, t: Tally, r: ServerRecord, copy: EntityId)
    requires r.kind in cfg.allowed && r.kind != CREDENTIAL && !r.tombstone && Read(cfg, r).Some?
    requires !Stale(st, r) && !IsConcurrent(st, r)
    ensures var o, p := Step(cfg, st, t, r, copy), Read(cfg, r).value;
      && o.err.None? && o.state.vault == st.vault[r.entity := Row(r.kind, p.data)]
      && o.state.local == st.local[r.entity := p.data]
      && o.state.Known(r.entity) == Synced(Merged(st.Known(r.entity).vector, Normalized(r)), p.data, p.fields, false)
  {
    hide CredentialAllowed, Compare, Merged, Normalized, LocallyChanged, MaxCounter, Parse;
    TakeKeepsRest(st, r);
    assert st.Take(r).local == st.local && st.Take(r).vault == st.vault;
  }

  lemma OwnPushIsNews(cfg: Config, st: State, device: DeviceId, id: EntityId, recordId: string)
    requires CanPush(cfg, st, device, id)
    ensures var r := OwnPush(cfg, st, device, id, recordId);
      var v := Incremented(st.Known(id).vector, device, st.Known(id).version);
      && !Stale(st, r) && Normalized(r) == v && Merged(st.Known(id).vector, Normalized(r)) == v
      && Less(st.Known(id).vector, v) && Positive(v)
      && Read(cfg, r) == Some(Parsed(st.vault[id].data, PushedState(st.Known(id), st.vault[id].data.members, device).fields))
  {
    hide Compare, Merged, EnvelopeFields;
    var r, known := OwnPush(cfg, st, device, id, recordId), st.Known(id);
    var v := Incremented(known.vector, device, known.version);
    hide Incremented, Seeded;
    IncrementDominates(known.vector, device, known.version);
    IncrementStaysPositive(known.vector, device, known.version);
    assert Cloned(v) == v;
    StaleMeansCovered(st, r);
    MergeWithLater(known.vector, v);
  }

  lemma MergeWithLater(a: Vector, b: Vector)
    requires Leq(a, b) && Positive(b)
    ensures Merged(a, b) == b
  {
    forall id ensures Get(Merged(a, b), id) == Get(b, id) {
      assert Get(a, id) <= Get(b, id);
    }
    SameCounters(Merged(a, b), b);
  }

  /** What one side left alone in a field that the base has. */
  predicate LeftAlone(base: Document, members: Object, name: string) {
    Member(members, name) == Member(base.members, name) && (name in base.fields ==> name in members)
  }

  lemma OwnPushSame(cfg: Config, a: State, b: State, device: DeviceId, id: EntityId, recordId: string)
    requires CanPush(cfg, a, device, id) && SameEntity(a, b, id)
    ensures CanPush(cfg, b, device, id) && OwnPush(cfg, b, device, id, recordId) == OwnPush(cfg, a, device, id, recordId)
  {}

  lemma PushOf(cfg: Config, st: State, device: DeviceId, id: EntityId)
    requires CanPush(cfg, st, device, id)
    ensures id in st.vault && st.vault[id].data.Members?
    ensures var rs := PushedState(st.Known(id), st.vault[id].data.members, device);
      && rs.vector == Incremented(st.Known(id).vector, device, st.Known(id).version)
      && rs.fields == EnvelopeFields(st.vault[id].data.members, st.Known(id).fields, rs.vector, device)
      && BoundedBy(st.Known(id).fields, st.Known(id).vector)
  {}

  // ----- a record and the own push in one pull -----

  /** The two records are the only ones about their entity, in this order. */
  ghost predicate Pair(first: seq<ServerRecord>, cf: seq<EntityId>, i: nat,
                       second: seq<ServerRecord>, cs: seq<EntityId>, j: nat, a: ServerRecord, b: ServerRecord) {
    && |cf| == |first| && i < |first| && OnlyOne(first, cf, i) && first[i] == a
    && |cs| == |second| && j < |second| && OnlyOne(second, cs, j) && second[j] == b
    && a.entity == b.entity
  }

  /** Nothing happens to the entity but the two steps. */
  lemma PullPair(cfg: Config, st: State, t: Tally, first: seq<ServerRecord>, cf: seq<EntityId>, i: nat,
                 second: seq<ServerRecord>, cs: seq<EntityId>, j: nat, a: ServerRecord, b: ServerRecord)
    returns (met: State, u: Tally, next: State, u': Tally)
    requires Pair(first, cf, i, second, cs, j, a, b) && Pull(cfg, st, t, first + second, cf + cs).err.None?
    ensures SameEntity(st, met, a.entity)
    ensures var o := Step(cfg, met, u, a, cf[i]); o.err.None? && SameEntity(o.state, next, a.entity)
    ensures var o := Step(cfg, next, u', b, cs[j]);
      o.err.None? && SameEntity(o.state, Pull(cfg, st, t, first + second, cf + cs).state, a.entity)
  {
    hide Step, Pull, SparesEntity, SameEntity;
    PullAppend(cfg, st, t, first, second, cf, cs);
    met, u := PullAround(cfg, st, t, first, cf, i);
    var half := Pull(cfg, st, t, first, cf);
    next, u' := PullAround(cfg, half.state, half.tally, second, cs, j);
    SameEntityTransitive(Step(cfg, met, u, a, cf[i]).state, half.state, next, a.entity);
  }

  /** An object of a synchronized kind, concurrent with what was pushed. */
  ghost predicate Foreign(cfg: Config, r: ServerRecord, pushed: Vector) {
    && r.kind in cfg.allowed && r.kind != CREDENTIAL && !r.tombstone
    && Read(cfg, r).Some? && Read(cfg, r).value.data.Members?
    && Compare(pushed, Normalized(r)) == Concurrent
  }

  function LocalCell(st: State, id: EntityId, name: string): Cell {
    CellOf(Document(LocalMembers(st, id), st.Known(id).fields), name)
  }

  function RemoteCell(cfg: Config, r: ServerRecord, name: string): Cell {
    CellOf(Document(RemoteMembers(cfg, r), RemoteFields(cfg, r)), name)
  }

  /** A field as it was pushed. */
  function PushedCell(st: State, device: DeviceId, id: EntityId, name: string): Cell
    requires id in st.vault && st.vault[id].data.Members?
  {
    var mine := st.vault[id].data.members;
    CellOf(Document(mine, PushedState(st.Known(id), mine, device).fields), name)
  }

  /** The own push comes back first: the other record is merged with it. */
  lemma OwnPushThenOther(cfg: Config, st: State, t: Tally, device: DeviceId, id: EntityId, recordId: string,
                         first: seq<ServerRecord>, cf: seq<EntityId>, i: nat,
                         second: seq<ServerRecord>, cs: seq<EntityId>, j: nat, r: ServerRecord,
                         name: string, value: Option<Raw>)
    requires CanPush(cfg, st, device, id) && LocalOf(st, id) == Some(st.vault[id].data)
    requires Pair(first, cf, i, second, cs, j, OwnPush(cfg, st, device, id, recordId), r)
    requires Pull(cfg, st, t, first + second, cf + cs).err.None?
    requires Foreign(cfg, r, PushedState(st.Known(id), st.vault[id].data.members, device).vector)
    ensures Holds(Pull(cfg, st, t, first + second, cf + cs).state, id, name, value) <==>
      MergeCell(PushedCell(st, device, id, name), RemoteCell(cfg, r, name)).value == value
  {
    hide Pull, Step, SparesEntity, CanPush, PushedState, Holds, MergeCell, RemoteMembers, RemoteFields, Compare, Normalized;
    PushOf(cfg, st, device, id);
    var own := OwnPush(cfg, st, device, id, recordId);
    var met, u, next, u' := PullPair(cfg, st, t, first, cf, i, second, cs, j, own, r);
    OwnPushSame(cfg, st, met, device, id, recordId);
    OwnPushSettles(cfg, met, u, device, id, recordId, cf[i]);
    assert Merges(cfg, next, r);
    MergedMember(cfg, next, u', r, cs[j], name, value);
    HoldsSame(Step(cfg, next, u', r, cs[j]).state, Pull(cfg, st, t, first + second, cf + cs).state, id, name, value);
  }

  /** The merge with the other record does not cover the own push, if the other device had not seen it. */
  lemma OwnPushStaysNews(past: Vector, theirs: Vector, pushed: Vector, device: DeviceId)
    requires Positive(theirs) && Positive(pushed) && Compare(pushed, theirs) == Concurrent
    requires Get(past, device) < Get(pushed, device) && Get(theirs, device) < Get(pushed, device)
    ensures Compare(Merged(past, theirs), pushed) == Concurrent
  {
    hide Compare, Merged;
    CompareExact(pushed, theirs);
    CompareExact(Merged(past, theirs), pushed);
    var other :| Get(theirs, other) > Get(pushed, other);
    assert Get(Merged(past, theirs), other) > Get(pushed, other);
    assert Get(Merged(past, theirs), device) < Get(pushed, device);
  }

  lemma PushRaisesOwnCounter(cfg: Config, st: State, device: DeviceId, id: EntityId)
    requires CanPush(cfg, st, device, id)
    ensures Get(st.Known(id).vector, device) < Get(Incremented(st.Known(id).vector, device, st.Known(id).version), device)
  {
    var known := st.Known(id);
    SeededCounters(known.vector, device, known.version);
  }

  /** The other record comes first: it is merged with the clocks from before the edit, and the own push with the
      outcome. */
  lemma OtherThenOwnPush(cfg: Config, st: State, t: Tally, device: DeviceId, id: EntityId, recordId: string,
                         first: seq<ServerRecord>, cf: seq<EntityId>, i: nat,
                         second: seq<ServerRecord>, cs: seq<EntityId>, j: nat, r: ServerRecord,
                         name: string, value: Option<Raw>)
    requires CanPush(cfg, st, device, id) && LocalOf(st, id) == Some(st.vault[id].data)
    requires Pair(first, cf, i, second, cs, j, r, OwnPush(cfg, st, device, id, recordId))
    requires Pull(cfg, st, t, first + second, cf + cs).err.None?
    requires Foreign(cfg, r, PushedState(st.Known(id), st.vault[id].data.members, device).vector) && Merges(cfg, st, r)
    requires Get(Normalized(r), device) < Get(PushedState(st.Known(id), st.vault[id].data.members, device).vector, device)
    ensures Holds(Pull(cfg, st, t, first + second, cf + cs).state, id, name, value) <==>
      MergeCell(MergeCell(LocalCell(st, id, name), RemoteCell(cfg, r, name)), PushedCell(st, device, id, name)).value == value
  {
    hide Pull, Step, SparesEntity, CanPush, PushedState, Holds, MergeCell, RemoteMembers, RemoteFields, Compare, Normalized,
         Merged, Merge, Merges, Stale, Incremented, Room;
    PushOf(cfg, st, device, id);
    var own := OwnPush(cfg, st, device, id, recordId);
    var met, u, next, u' := PullPair(cfg, st, t, first, cf, i, second, cs, j, r, own);
    MergesSame(cfg, st, met, r);
    MergeStep(cfg, met, u, r, cf[i]);
    PushRaisesOwnCounter(cfg, st, device, id);
    OwnPushIsNews(cfg, st, device, id, recordId);
    OwnPushStaysNews(st.Known(id).vector, Normalized(r), Normalized(own), device);
    OwnPushMerges(cfg, st, next, own, device, id, recordId);
    MergedMember(cfg, next, u', own, cs[j], name, value);
    var m := Merge(Document(LocalMembers(st, id), st.Known(id).fields),
                   Document(RemoteMembers(cfg, r), RemoteFields(cfg, r)));
    assert CellOf(m, name) == MergeCell(LocalCell(st, id, name), RemoteCell(cfg, r, name));
    HoldsSame(Step(cfg, next, u', own, cs[j]).state, Pull(cfg, st, t, first + second, cf + cs).state, id, name, value);
  }

  lemma OwnPushMerges(cfg: Config, st: State, next: State, own: ServerRecord, device: DeviceId, id: EntityId,
                      recordId: string)
    requires CanPush(cfg, st, device, id) && own == OwnPush(cfg, st, device, id, recordId)
    requires id in next.local && next.local[id].Members?
    requires Compare(next.Known(id).vector, Normalized(own)) == Concurrent
    ensures Merges(cfg, next, own)
    ensures RemoteMembers(cfg, own) == st.vault[id].data.members
    ensures RemoteFields(cfg, own) == PushedState(st.Known(id), st.vault[id].data.members, device).fields
  {
    hide Compare, Normalized, Read, LocallyChanged, PushedState, Room;
    OwnPushIsNews(cfg, st, device, id, recordId);
  }

  // ----- two edits of one base -----

  /** Another device's envelope of the same base, concurrent with `pushed`. */
  ghost predicate ConcurrentEdit(cfg: Config, r: ServerRecord, base: Document, past: Vector, pushed: Vector,
                                 theirs: Object, w: Vector, them: DeviceId) {
    && Foreign(cfg, r, pushed) && Less(past, w) && Positive(w)
    && Read(cfg, r) == Some(Parsed(Members(theirs), EnvelopeFields(theirs, base.fields, w, them)))
  }

  /** Whichever comes first: a field that only one of the two touched ends as that one wrote it. */
  lemma CellsMeet(base: Document, past: Vector, mine: Object, v: Vector, me: DeviceId, theirs: Object, w: Vector,
                  them: DeviceId, name: string)
    requires Live(base) && BoundedBy(base.fields, past)
    requires Less(past, v) && Positive(v) && Less(past, w) && Positive(w)
    ensures var l, t, o := CellOf(Document(mine, base.fields), name),
                           CellOf(Document(theirs, EnvelopeFields(theirs, base.fields, w, them)), name),
                           CellOf(Document(mine, EnvelopeFields(mine, base.fields, v, me)), name);
      && (LeftAlone(base, theirs, name) ==>
            MergeCell(o, t).value == Member(mine, name) && MergeCell(MergeCell(l, t), o).value == Member(mine, name))
      && (LeftAlone(base, mine, name) ==>
            MergeCell(o, t).value == Member(theirs, name) && MergeCell(MergeCell(l, t), o).value == Member(theirs, name))
  {
    hide Leq, Compare;
    assert Cloned(v) == v && Cloned(w) == w;
    assert LiveCell(CellOf(base, name));
    if name in base.fields {
      var known := base.fields[name];
      LeqThenLess(known.vector, past, v);
      LeqThenLess(known.vector, past, w);
      CompareExact(known.vector, v);
      CompareExact(known.vector, w);
      CompareExact(v, known.vector);
      CompareExact(w, known.vector);
      SelfIsNoWinner(known);
    }
  }

  /** What was pushed, and what the pull merges it with, is news and concurrent. */
  lemma ForeignMerges(cfg: Config, st: State, device: DeviceId, id: EntityId, r: ServerRecord)
    requires CanPush(cfg, st, device, id) && r.entity == id && LocalOf(st, id) == Some(st.vault[id].data)
    requires Foreign(cfg, r, PushedState(st.Known(id), st.vault[id].data.members, device).vector)
    requires LocallyChanged(st.Known(id), LocalOf(st, id))
    ensures Merges(cfg, st, r)
  {
    hide Compare, Normalized, LocallyChanged, Read, Incremented, Room;
    var past, pushed := st.Known(id).vector, Incremented(st.Known(id).vector, device, st.Known(id).version);
    OwnPushIsNews(cfg, st, device, id, "");
    StaleMeansCovered(st, r);
    CompareExact(pushed, Normalized(r));
    if Stale(st, r) {
      LeqTransitive(Normalized(r), past, pushed);
    }
  }

  /** The pull of a synchronization hands out the own push and one other record about the row: before it, or,
      from a device that had not seen it, after it. */
  ghost predicate Echoes(cfg: Config, st: State, device: DeviceId, id: EntityId, recordId: string,
                         first: seq<ServerRecord>, cf: seq<EntityId>, i: nat,
                         second: seq<ServerRecord>, cs: seq<EntityId>, j: nat, r: ServerRecord, ownFirst: bool) {
    && CanPush(cfg, st, device, id)
    && LocallyChanged(st.Known(id), Some(st.vault[id].data))
    && var pushed := PushedState(st.Known(id), st.vault[id].data.members, device).vector;
    && var own := OwnPush(cfg, st, device, id, recordId);
    && Foreign(cfg, r, pushed)
    && if ownFirst then Pair(first, cf, i, second, cs, j, own, r)
       else Pair(first, cf, i, second, cs, j, r, own) && Get(Normalized(r), device) < Get(pushed, device)
  }

  /** What such a synchronization leaves of a field: the three writes of it, merged in their order. */
  lemma EchoedField(cfg: Config, st: State, journal: seq<Deletion>, device: DeviceId, id: EntityId, recordId: string,
                    first: seq<ServerRecord>, cf: seq<EntityId>, i: nat, second: seq<ServerRecord>, cs: seq<EntityId>,
                    j: nat, r: ServerRecord, ownFirst: bool, name: string, value: Option<Raw>)
    requires Echoes(cfg, st, device, id, recordId, first, cf, i, second, cs, j, r, ownFirst)
    requires Pull(cfg, st.(local := Exported(cfg, st.vault)), Tally(0, 0), first + second, cf + cs).err.None?
    ensures var start := st.(local := Exported(cfg, st.vault));
      var l, t, o := LocalCell(start, id, name), RemoteCell(cfg, r, name), PushedCell(st, device, id, name);
      Holds(AfterSync(cfg, st, journal, device, first + second, cf + cs), id, name, value) <==>
        (if ownFirst then MergeCell(o, t) else MergeCell(MergeCell(l, t), o)).value == value
  {
    hide Pull, Foreign, Pair, Merges, LocallyChanged, MergeCell, PushedState, PendingStates, RemoteMembers, RemoteFields;
    var start := st.(local := Exported(cfg, st.vault));
    assert start.Known(id) == st.Known(id) && CanPush(cfg, start, device, id);
    assert OwnPush(cfg, start, device, id, recordId) == OwnPush(cfg, st, device, id, recordId);
    assert PushedCell(start, device, id, name) == PushedCell(st, device, id, name);
    if ownFirst {
      OwnPushThenOther(cfg, start, Tally(0, 0), device, id, recordId, first, cf, i, second, cs, j, r, name, value);
    } else {
      PairIsAboutOne(first, cf, i, second, cs, j, r, OwnPush(cfg, st, device, id, recordId));
      ForeignMerges(cfg, start, device, id, r);
      OtherThenOwnPush(cfg, start, Tally(0, 0), device, id, recordId, first, cf, i, second, cs, j, r, name, value);
    }
  }

  lemma PairIsAboutOne(first: seq<ServerRecord>, cf: seq<EntityId>, i: nat,
                       second: seq<ServerRecord>, cs: seq<EntityId>, j: nat, a: ServerRecord, b: ServerRecord)
    requires Pair(first, cf, i, second, cs, j, a, b)
    ensures a.entity == b.entity
  {}

  /** When the server hands the own push out again, in whichever order: every field that only one of the two
      devices touched ends in the vault as that one wrote it - changed, added or deleted. */
  lemma EditsMeetInSync(cfg: Config, st: State, journal: seq<Deletion>, device: DeviceId, id: EntityId, recordId: string,
                        first: seq<ServerRecord>, cf: seq<EntityId>, i: nat, second: seq<ServerRecord>,
                        cs: seq<EntityId>, j: nat, r: ServerRecord, ownFirst: bool,
                        base: Document, theirs: Object, w: Vector, them: DeviceId, name: string)
    requires Echoes(cfg, st, device, id, recordId, first, cf, i, second, cs, j, r, ownFirst)
    requires Pull(cfg, st.(local := Exported(cfg, st.vault)), Tally(0, 0), first + second, cf + cs).err.None?
    requires Live(base) && base.fields == st.Known(id).fields
    requires ConcurrentEdit(cfg, r, base, st.Known(id).vector,
                            PushedState(st.Known(id), st.vault[id].data.members, device).vector, theirs, w, them)
    ensures var after, mine := AfterSync(cfg, st, journal, device, first + second, cf + cs), st.vault[id].data.members;
      && (LeftAlone(base, theirs, name) ==> Holds(after, id, name, Member(mine, name)))
      && (LeftAlone(base, mine, name) ==> Holds(after, id, name, Member(theirs, name)))
  {
    hide Pull, Pair, Holds, AfterSync, Live, BoundedBy, MergeCell, Less, Foreign, LocallyChanged, Room;
    var start, mine := st.(local := Exported(cfg, st.vault)), st.vault[id].data.members;
    PushOf(cfg, st, device, id);
    OwnPushIsNews(cfg, st, device, id, recordId);
    EchoedField(cfg, st, journal, device, id, recordId, first, cf, i, second, cs, j, r, ownFirst, name, Member(mine, name));
    EchoedField(cfg, st, journal, device, id, recordId, first, cf, i, second, cs, j, r, ownFirst, name, Member(theirs, name));
    CellsMeet(base, st.Known(id).vector, mine, PushedState(st.Known(id), mine, device).vector, device, theirs, w, them, name);
    assert start.Known(id) == st.Known(id) && LocalMembers(start, id) == mine;
  }

  /** A field that was changed, added or deleted here, against any other record that says otherwise: the edit
      survives unless the record's write beats the pushed one; if the record comes first, unless it beats the last
      write that both sides knew, and the pushed one does not beat it. */
  lemma EditSurvivesEchoIff(cfg: Config, st: State, journal: seq<Deletion>, device: DeviceId, id: EntityId,
                            recordId: string, first: seq<ServerRecord>, cf: seq<EntityId>, i: nat,
                            second: seq<ServerRecord>, cs: seq<EntityId>, j: nat, r: ServerRecord, ownFirst: bool,
                            name: string)
    requires Echoes(cfg, st, device, id, recordId, first, cf, i, second, cs, j, r, ownFirst)
    requires Pull(cfg, st.(local := Exported(cfg, st.vault)), Tally(0, 0), first + second, cf + cs).err.None?
    requires var o := PushedCell(st, device, id, name);
      && o.clock.Some? && o.clock.value.vector == PushedState(st.Known(id), st.vault[id].data.members, device).vector
      && LiveCell(RemoteCell(cfg, r, name)) && RemoteCell(cfg, r, name).value != o.value
    ensures var after, o, t := AfterSync(cfg, st, journal, device, first + second, cf + cs),
                               PushedCell(st, device, id, name), RemoteCell(cfg, r, name).clock;
      var known := st.Known(id).fields;
      Holds(after, id, name, o.value) <==>
        if ownFirst then !(t.Some? && Beats(t.value, o.clock.value))
        else !(t.Some? && (name in known ==> Beats(t.value, known[name])) && !Beats(o.clock.value, t.value))
  {
    hide Pull, Pair, Holds, AfterSync, BoundedBy, MergeCell, Less, Foreign, LocallyChanged, Room, Beats, RemoteMembers,
         RemoteFields;
    var start, o := st.(local := Exported(cfg, st.vault)), PushedCell(st, device, id, name);
    PushOf(cfg, st, device, id);
    OwnPushIsNews(cfg, st, device, id, recordId);
    EchoedField(cfg, st, journal, device, id, recordId, first, cf, i, second, cs, j, r, ownFirst, name, o.value);
    assert start.Known(id) == st.Known(id);
    EditedCell(st.vault[id].data.members, st.Known(id).fields, st.Known(id).vector, o.clock.value.vector, device,
               RemoteCell(cfg, r, name), name);
  }

  lemma EditedCell(mine: Object, known: Fields, past: Vector, v: Vector, me: DeviceId, t: Cell, name: string)
    requires BoundedBy(known, past) && Less(past, v) && Positive(v) && LiveCell(t)
    requires name in mine || name in known
    requires EnvelopeFields(mine, known, v, me)[name].vector == v && t.value != Member(mine, name)
    ensures var l, o := CellOf(Document(mine, known), name), CellOf(Document(mine, EnvelopeFields(mine, known, v, me)), name);
      && (MergeCell(o, t).value == o.value <==> !(t.clock.Some? && Beats(t.clock.value, o.clock.value)))
      && (MergeCell(MergeCell(l, t), o).value == o.value <==>
            !(t.clock.Some? && (name in known ==> Beats(t.clock.value, known[name])) && !Beats(o.clock.value, t.clock.value)))
  {
    hide Leq, Compare;
    assert Cloned(v) == v;
    if name in known {
      LeqThenLess(known[name].vector, past, v);
      CompareExact(known[name].vector, v);
      LessIsIrreflexive(v);
    }
  }

  // ----- the added field is not lost -----

  /** What both devices had before. */
  const COMMON := Document(map["a" := "1"], map["a" := FieldState(map["X" := 1], "X", Some(Sha256("1")))])

  /** The edits that collide when the own push does not come back meet when it does, even behind the other one. */
  lemma AddedFieldIsKept()
    ensures var own := OwnPush(LAPTOP, EDITED, "X", "e", "o");
      var after := AfterSync(LAPTOP, EDITED, [], "X", [CHANGED] + [own], ["c"] + ["d"]);
      Holds(after, "e", "n", Some("9")) && Holds(after, "e", "a", Some("2"))
  {
    hide Echoes, ConcurrentEdit, AfterSync, Holds, Pull;
    var own := OwnPush(LAPTOP, EDITED, "X", "e", "o");
    var w: Vector := map["X" := 1, "Y" := 1];
    ChangedIsConcurrentEdit();
    ChangedEchoes();
    ChangedPulls();
    EditsMeetInSync(LAPTOP, EDITED, [], "X", "e", "o", [CHANGED], ["c"], 0, [own], ["d"], 0, CHANGED, false,
                    COMMON, map["a" := "2"], w, "Y", "n");
    EditsMeetInSync(LAPTOP, EDITED, [], "X", "e", "o", [CHANGED], ["c"], 0, [own], ["d"], 0, CHANGED, false,
                    COMMON, map["a" := "2"], w, "Y", "a");
  }

  lemma EditedPush()
    ensures Incremented(EDITED.Known("e").vector, "X", 1) == map["X" := 2]
    ensures CanPush(LAPTOP, EDITED, "X", "e")
  {
    var mine: Vector := map["X" := 1];
    assert Cloned(mine) == mine;
  }

  lemma ChangedIsForeign()
    ensures Normalized(CHANGED) == map["X" := 1, "Y" := 1]
    ensures Foreign(LAPTOP, CHANGED, map["X" := 2])
  {
    var pushed: Vector := map["X" := 2];
    assert Normalized(CHANGED) == map["X" := 1, "Y" := 1];
    assert pushed["X"] > Get(Normalized(CHANGED), "X") && Normalized(CHANGED)["Y"] > 0;
  }

  lemma ChangedIsConcurrentEdit()
    ensures Live(COMMON) && COMMON.fields == EDITED.Known("e").fields
    ensures ConcurrentEdit(LAPTOP, CHANGED, COMMON, EDITED.Known("e").vector,
                           PushedState(EDITED.Known("e"), EDITED.vault["e"].data.members, "X").vector,
                           map["a" := "2"], map["X" := 1, "Y" := 1], "Y")
    ensures LeftAlone(COMMON, map["a" := "2"], "n") && LeftAlone(COMMON, EDITED.vault["e"].data.members, "a")
  {
    hide Foreign;
    EditedPush();
    ChangedIsForeign();
    var past: Vector, w: Vector := map["X" := 1], map["X" := 1, "Y" := 1];
    assert Get(past, "Y") < Get(w, "Y");
    assert Cloned(w) == w;
    assert EnvelopeFields(map["a" := "2"], COMMON.fields, w, "Y") == map["a" := FieldState(w, "Y", Some(Sha256("2")))];
  }

  lemma ChangedEchoes()
    ensures var own := OwnPush(LAPTOP, EDITED, "X", "e", "o");
      Echoes(LAPTOP, EDITED, "X", "e", "o", [CHANGED], ["c"], 0, [own], ["d"], 0, CHANGED, false)
  {
    hide Foreign, CanPush;
    EditedPush();
    ChangedIsForeign();
    assert "n" in map["a" := "1", "n" := "9"] && "n" !in map["a" := "1"];
  }

  lemma ChangedPulls()
    ensures var start := EDITED.(local := Exported(LAPTOP, EDITED.vault));
      Pull(LAPTOP, start, Tally(0, 0), [CHANGED] + [OwnPush(LAPTOP, EDITED, "X", "e", "o")], ["c"] + ["d"]).err.None?
  {
    hide Pull, Step, Merges, Merged, Compare, Normalized, Merge;
    var own := OwnPush(LAPTOP, EDITED, "X", "e", "o");
    var start, t := EDITED.(local := Exported(LAPTOP, EDITED.vault)), Tally(0, 0);
    ChangedMerges();
    PullAppend(LAPTOP, start, t, [CHANGED], [own], ["c"], ["d"]);
    PullOne(LAPTOP, start, t, CHANGED, "c");
    MergeStep(LAPTOP, start, t, CHANGED, "c");
    var o := Step(LAPTOP, start, t, CHANGED, "c");
    PullOne(LAPTOP, o.state, o.tally, own, "d");
    OwnIsNewsBehindChanged(o.state);
    MergeStep(LAPTOP, o.state, o.tally, own, "d");
  }

  lemma OwnIsNewsBehindChanged(next: State)
    requires "e" in next.local && next.local["e"].Members?
    requires next.Known("e").vector == Merged(EDITED.Known("e").vector, Normalized(CHANGED))
    ensures Merges(LAPTOP, next, OwnPush(LAPTOP, EDITED, "X", "e", "o"))
  {
    hide Merges, Merged, Compare, Normalized;
    var own := OwnPush(LAPTOP, EDITED, "X", "e", "o");
    EditedPush();
    ChangedIsForeign();
    OwnPushIsNews(LAPTOP, EDITED, "X", "e", "o");
    OwnPushStaysNews(EDITED.Known("e").vector, Normalized(CHANGED), Normalized(own), "X");
    OwnPushMerges(LAPTOP, EDITED, next, own, "X", "e", "o");
  }
}
