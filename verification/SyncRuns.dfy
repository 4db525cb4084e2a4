/** What a successful synchronization keeps, and what it does not. */
module SyncRuns {
  import opened Options
  import opened VersionVectors
  import opened FieldMerge
  import opened SyncSpec
  import opened SyncSafety
  import opened SyncEnvelope
  import opened Sync

  /** The device's counter of a pushed record has room for one more. */
  predicate Room(st: State, device: DeviceId, id: EntityId) {
    var previous := st.Known(id);
    Get(Seeded(previous.vector, device, previous.version), device) < MAX_INT64
  }

  ghost predicate OwnCountersCount(st: State, device: DeviceId) { forall id :: Get(st.Known(id).vector, device) >= 0 }

  /** A pending state is the start state's clock, incremented, with field clocks within it. */
  ghost predicate Advances(st: State, device: DeviceId, pending: map<EntityId, RecordState>) {
    forall id :: id in pending ==>
      && pending[id].vector == Incremented(st.Known(id).vector, device, st.Known(id).version)
      && (AllBounded(st) && Room(st, device, id) && Get(st.Known(id).vector, device) >= 0 ==>
            BoundedBy(pending[id].fields, pending[id].vector))
  }

  lemma RecordStatesAdvance(cfg: Config, st: State, device: DeviceId)
    ensures Advances(st, device, RecordStates(cfg, st, device))
  {
    hide CredentialAllowed, Incremented, Seeded, BoundedBy, EnvelopeFields, AllBounded;
    var pending := RecordStates(cfg, st, device);
    forall id | id in pending && AllBounded(st) && Room(st, device, id) && Get(st.Known(id).vector, device) >= 0
      ensures BoundedBy(pending[id].fields, pending[id].vector)
    {
      var rs := st.Known(id);
      BoundsOf(st, id);
      IncrementDominates(rs.vector, device, rs.version);
      IncrementStaysPositive(rs.vector, device, rs.version);
      EnvelopeKeepsBound(st.vault[id].data.members, rs.fields, rs.vector, pending[id].vector, device);
    }
  }

  lemma {:induction false} DeletedStatesAdvance(st: State, journal: seq<Deletion>, device: DeviceId)
    ensures Advances(st, device, DeletedStates(st.records, journal, device))
    decreases |journal|
  {
    hide Incremented, AllBounded;
    if journal != [] {
      DeletedStatesAdvance(st, journal[..|journal| - 1], device);
    }
  }

  /** An entity without a journalled deletion is not pushed as deleted. */
  lemma {:induction false} NotDeleted(records: map<EntityId, RecordState>, journal: seq<Deletion>, device: DeviceId,
                                      id: EntityId)
    requires forall d :: d in journal ==> d.entity != id
    ensures id !in DeletedStates(records, WorthPushing(records, journal), device)
    decreases |journal|
  {
    hide Incremented;
    if journal != [] {
      var d, rest := journal[|journal| - 1], journal[..|journal| - 1];
      NotDeleted(records, rest, device, id);
      var kept := WorthPushing(records, rest);
      assert (kept + [d])[..|kept|] == kept;
      assert kept + [] == kept;
    }
  }

  lemma PendingAdvances(cfg: Config, st: State, journal: seq<Deletion>, device: DeviceId)
    ensures Advances(st, device, PendingStates(cfg, st, journal, device))
  {
    hide RecordStates, DeletedStates, Incremented, AllBounded, BoundedBy;
    RecordStatesAdvance(cfg, st, device);
    DeletedStatesAdvance(st, WorthPushing(st.records, journal), device);
  }

  /** A successful synchronization: the pull of `list` from the start state, overwritten by what was pushed. */
  ghost function AfterSync(cfg: Config, st: State, journal: seq<Deletion>, device: DeviceId,
                           list: seq<ServerRecord>, ids: seq<EntityId>): State
    requires |ids| == |list|
  {
    var start := st.(local := Exported(cfg, st.vault));
    Overwritten(Pull(cfg, start, Tally(0, 0), list, ids).state, PendingStates(cfg, st, journal, device))
  }

  /** A pushed row that is not journalled as deleted: what is known about it afterwards is what was pushed,
      whatever the pull brought; so it is pushed again exactly if the pull left another text. */
  lemma PushedIsKnown(cfg: Config, st: State, journal: seq<Deletion>, device: DeviceId,
                      list: seq<ServerRecord>, ids: seq<EntityId>, id: EntityId)
    requires |ids| == |list| && Pushable(cfg, st, id) && st.vault[id].data.Members?
    requires forall d :: d in journal ==> d.entity != id
    ensures var after := AfterSync(cfg, st, journal, device, list, ids);
      && after.Known(id) == PushedState(st.Known(id), st.vault[id].data.members, device)
      && (Pushable(cfg, after, id) <==>
            && id in after.vault && after.vault[id].kind in cfg.allowed
            && (after.vault[id].kind == CREDENTIAL ==> CredentialAllowed(cfg.policy, id, after.vault[id].data))
            && after.vault[id].data != st.vault[id].data)
  {
    hide Pull, Incremented, CredentialAllowed, DeletedStates, WorthPushing, EnvelopeFields;
    NotDeleted(st.records, journal, device, id);
  }

  /** Every record ends at or above the clock it began with, exactly as far as no pushed counter wraps. */
  lemma SyncNeverLowers(cfg: Config, st: State, journal: seq<Deletion>, device: DeviceId,
                        list: seq<ServerRecord>, ids: seq<EntityId>)
    requires FreshCopies(st.(local := Exported(cfg, st.vault)), list, ids) && OwnCountersCount(st, device)
    ensures NoLower(st, AfterSync(cfg, st, journal, device, list, ids)) <==>
      forall id :: id in PendingStates(cfg, st, journal, device) ==> Room(st, device, id)
  {
    hide Pull, PendingStates, Incremented, Seeded, AllBounded, BoundedBy, Leq;
    var start := st.(local := Exported(cfg, st.vault));
    var pending := PendingStates(cfg, st, journal, device);
    var pulled, after := Pull(cfg, start, Tally(0, 0), list, ids).state, AfterSync(cfg, st, journal, device, list, ids);
    PendingAdvances(cfg, st, journal, device);
    PullNeverLowers(cfg, start, Tally(0, 0), list, ids);
    forall id
      ensures Leq(st.Known(id).vector, after.Known(id).vector) <==> (id in pending ==> Room(st, device, id))
    {
      assert start.Known(id) == st.Known(id);
      IncrementOrWrap(st.Known(id).vector, device, st.Known(id).version);
      assert Leq(start.Known(id).vector, pulled.Known(id).vector);
    }
  }

  lemma IncrementOrWrap(v: Vector, device: DeviceId, version: int64)
    requires Get(v, device) >= 0
    ensures Leq(v, Incremented(v, device, version)) <==> Get(Seeded(v, device, version), device) < MAX_INT64
  {
    IncrementDominates(v, device, version);
    SeededCounters(v, device, version);
    if Get(Seeded(v, device, version), device) == MAX_INT64 {
      assert Get(Incremented(v, device, version), device) < Get(v, device);
    }
  }

  lemma SyncKeepsBounded(cfg: Config, st: State, journal: seq<Deletion>, device: DeviceId,
                         list: seq<ServerRecord>, ids: seq<EntityId>)
    requires |ids| == |list| && AllBounded(st) && forall r :: r in list ==> Honest(r)
    requires OwnCountersCount(st, device)
    requires forall id :: id in PendingStates(cfg, st, journal, device) ==> Room(st, device, id)
    ensures AllBounded(AfterSync(cfg, st, journal, device, list, ids))
  {
    hide Pull, PendingStates, Incremented, Seeded, BoundedBy;
    var start := st.(local := Exported(cfg, st.vault));
    var pending := PendingStates(cfg, st, journal, device);
    var after := AfterSync(cfg, st, journal, device, list, ids);
    PendingAdvances(cfg, st, journal, device);
    forall id ensures start.Known(id) == st.Known(id) {}
    PullKeepsBounded(cfg, start, Tally(0, 0), list, ids);
    var pulled := Pull(cfg, start, Tally(0, 0), list, ids).state;
    forall id ensures BoundedBy(after.Known(id).fields, after.Known(id).vector) {
      assert id !in pending ==> after.Known(id) == pulled.Known(id);
    }
  }

  // ----- what a synchronization forgets -----

  /** In this state the record is stored under its own entity, unless it is old. */
  ghost predicate TakenIn(cfg: Config, met: State, r: ServerRecord) {
    Wanted(cfg, r) && !ConflictingCredential(cfg, met, r)
  }

  /** Every record about the entity that the pull takes in is within the bound. */
  ghost predicate TakenWithin(cfg: Config, st: State, t: Tally, batch: seq<ServerRecord>, copies: seq<EntityId>,
                              id: EntityId, bound: Vector)
    requires |copies| == |batch|
  {
    forall i :: 0 <= i < |batch| ==>
      batch[i].entity == id && TakenIn(cfg, Met(cfg, st, t, batch, copies, i), batch[i]) ==>
        Leq(Normalized(batch[i]), bound)
  }

  lemma TakenSplit(cfg: Config, st: State, t: Tally, batch: seq<ServerRecord>, copies: seq<EntityId>, id: EntityId,
                   bound: Vector)
    requires |copies| == |batch| && batch != []
    ensures var first := Step(cfg, st, t, batch[0], copies[0]);
      TakenWithin(cfg, st, t, batch, copies, id, bound) <==>
        && (batch[0].entity == id && TakenIn(cfg, st, batch[0]) ==> Leq(Normalized(batch[0]), bound))
        && TakenWithin(cfg, first.state, first.tally, batch[1..], copies[1..], id, bound)
  {
    hide Step, TakenIn, Leq, Normalized;
    var first := Step(cfg, st, t, batch[0], copies[0]);
    assert Met(cfg, st, t, batch, copies, 0) == st;
    forall i | 1 <= i < |batch|
      ensures batch[1..][i - 1] == batch[i]
      ensures Met(cfg, st, t, batch, copies, i) == Met(cfg, first.state, first.tally, batch[1..], copies[1..], i - 1)
    {}
    if TakenWithin(cfg, st, t, batch, copies, id, bound) {
      forall i | 0 <= i < |batch[1..]| && batch[1..][i].entity == id
                 && TakenIn(cfg, Met(cfg, first.state, first.tally, batch[1..], copies[1..], i), batch[1..][i])
        ensures Leq(Normalized(batch[1..][i]), bound)
      {
        assert batch[i + 1] == batch[1..][i];
      }
    }
  }

  lemma TakenNothing(cfg: Config, st: State, t: Tally, id: EntityId, bound: Vector)
    ensures TakenWithin(cfg, st, t, [], [], id, bound)
  {}

  /** The clock after a pull is the least upper bound of the one before and of what was taken in. */
  lemma {:induction false} PullGathers(cfg: Config, st: State, t: Tally, batch: seq<ServerRecord>, copies: seq<EntityId>,
                                       id: EntityId, bound: Vector)
    requires |copies| == |batch| && Pull(cfg, st, t, batch, copies).err.None?
    requires forall i :: 0 <= i < |batch| && batch[i].kind == CREDENTIAL ==> copies[i] != id
    requires forall d :: Get(bound, d) >= 0
    ensures Leq(Pull(cfg, st, t, batch, copies).state.Known(id).vector, bound) <==>
      Leq(st.Known(id).vector, bound) && TakenWithin(cfg, st, t, batch, copies, id, bound)
    decreases |batch|
  {
    hide Step, TakenWithin, TakenIn, Leq, Normalized, Stale;
    if batch == [] {
      TakenNothing(cfg, st, t, id, bound);
    } else {
      var first := Step(cfg, st, t, batch[0], copies[0]);
      StepGathers(cfg, st, t, batch[0], copies[0], id, bound);
      TakenSplit(cfg, st, t, batch, copies, id, bound);
      PullGathers(cfg, first.state, first.tally, batch[1..], copies[1..], id, bound);
    }
  }

  lemma StepGathers(cfg: Config, st: State, t: Tally, r: ServerRecord, copy: EntityId, id: EntityId, bound: Vector)
    requires Step(cfg, st, t, r, copy).err.None? && (r.kind == CREDENTIAL ==> copy != id)
    requires forall d :: Get(bound, d) >= 0
    ensures Leq(Step(cfg, st, t, r, copy).state.Known(id).vector, bound) <==>
      Leq(st.Known(id).vector, bound) &&
      (r.entity == id && TakenIn(cfg, st, r) ==> Leq(Normalized(r), bound))
  {
    hide Step, Refused, Leq, Normalized, Stale, Merged, Target;
    var s := Step(cfg, st, t, r, copy).state;
    if !Wanted(cfg, r) || Stale(st, r) {
      IdleStep(cfg, st, t, r, copy);
      assert s.Known(id) == st.Known(id);
      StaleMeansCovered(st, r);
      if Stale(st, r) && Leq(st.Known(r.entity).vector, bound) {
        LeqTransitive(Normalized(r), st.Known(r.entity).vector, bound);
      }
    } else {
      NewsStep(cfg, st, t, r, copy);
      WritesClock(st.Take(r), s, Target(st, r, copy), Merged(st.Known(r.entity).vector, Normalized(r)));
      assert st.Take(r).Known(id) == st.Known(id);
      MergeIsLeastUpperBound(st.Known(r.entity).vector, Normalized(r), bound);
    }
  }

  /** What a pull taught about the clocks of pushed records is overwritten: it survives exactly if every pushed
      clock has room and every record that was pulled about a pushed entity, and taken in, is within the clock
      the push gave it. */
  lemma SyncForgetsPulledClocks(cfg: Config, st: State, journal: seq<Deletion>, device: DeviceId,
                                list: seq<ServerRecord>, ids: seq<EntityId>)
    requires |ids| == |list| && FreshCopies(st.(local := Exported(cfg, st.vault)), list, ids) && OwnCountersCount(st, device)
    requires Pull(cfg, st.(local := Exported(cfg, st.vault)), Tally(0, 0), list, ids).err.None?
    ensures var start, t := st.(local := Exported(cfg, st.vault)), Tally(0, 0);
      NoLower(Pull(cfg, start, t, list, ids).state, AfterSync(cfg, st, journal, device, list, ids)) <==>
        forall id :: id in PendingStates(cfg, st, journal, device) ==>
          && Room(st, device, id)
          && TakenWithin(cfg, start, t, list, ids, id, Incremented(st.Known(id).vector, device, st.Known(id).version))
  {
    hide Pull, PendingStates, Incremented, Seeded, AllBounded, BoundedBy, Leq, TakenWithin, Room, FreshCopies;
    var start, t := st.(local := Exported(cfg, st.vault)), Tally(0, 0);
    var pending := PendingStates(cfg, st, journal, device);
    var pulled, after := Pull(cfg, start, t, list, ids).state, AfterSync(cfg, st, journal, device, list, ids);
    PendingAdvances(cfg, st, journal, device);
    PullNeverLowers(cfg, start, t, list, ids);
    forall id
      ensures Leq(pulled.Known(id).vector, after.Known(id).vector) <==> (id in pending ==>
        && Room(st, device, id)
        && TakenWithin(cfg, start, t, list, ids, id, Incremented(st.Known(id).vector, device, st.Known(id).version)))
    {
      assert start.Known(id) == st.Known(id);
      assert Leq(start.Known(id).vector, pulled.Known(id).vector);
      if id in pending {
        PushedIsOurs(cfg, st, journal, device, id);
        CopiesSpare(start, list, ids, id);
        PushedClockHolds(cfg, st, device, list, ids, id);
      } else {
        LeqReflexive(pulled.Known(id).vector);
      }
    }
  }

  lemma PushedIsOurs(cfg: Config, st: State, journal: seq<Deletion>, device: DeviceId, id: EntityId)
    requires id in PendingStates(cfg, st, journal, device)
    ensures id in st.vault || id in st.records
  {
    hide CredentialAllowed, Incremented, PushedState;
    DeletedAreKnown(st.records, journal, device, id);
  }

  lemma {:induction false} DeletedAreKnown(records: map<EntityId, RecordState>, journal: seq<Deletion>, device: DeviceId,
                                           id: EntityId)
    ensures id in DeletedStates(records, WorthPushing(records, journal), device) ==> id in records
    decreases |journal|
  {
    hide Incremented;
    if journal != [] {
      var d, rest := journal[|journal| - 1], journal[..|journal| - 1];
      DeletedAreKnown(records, rest, device, id);
      var kept := WorthPushing(records, rest);
      assert (kept + [d])[..|kept|] == kept;
      assert kept + [] == kept;
    }
  }

  lemma CopiesSpare(st: State, list: seq<ServerRecord>, ids: seq<EntityId>, id: EntityId)
    requires |ids| == |list| && FreshCopies(st, list, ids) && (id in st.vault || id in st.records)
    ensures forall i :: 0 <= i < |list| && list[i].kind == CREDENTIAL ==> ids[i] != id
  {
    forall i | 0 <= i < |list| && list[i].kind == CREDENTIAL ensures ids[i] != id {
      assert FreshCopy(st, list[i], ids[i]);
    }
  }

  /** A pushed clock covers what the pull gathered, or it has wrapped around. */
  lemma PushedClockHolds(cfg: Config, st: State, device: DeviceId, list: seq<ServerRecord>,
                         ids: seq<EntityId>, id: EntityId)
    requires |ids| == |list| && Get(st.Known(id).vector, device) >= 0
    requires var start := st.(local := Exported(cfg, st.vault));
      && Pull(cfg, start, Tally(0, 0), list, ids).err.None?
      && Leq(st.Known(id).vector, Pull(cfg, start, Tally(0, 0), list, ids).state.Known(id).vector)
    requires forall i :: 0 <= i < |list| && list[i].kind == CREDENTIAL ==> ids[i] != id
    ensures var start := st.(local := Exported(cfg, st.vault));
      var v := Incremented(st.Known(id).vector, device, st.Known(id).version);
      Leq(Pull(cfg, start, Tally(0, 0), list, ids).state.Known(id).vector, v) <==>
        Room(st, device, id) && TakenWithin(cfg, start, Tally(0, 0), list, ids, id, v)
  {
    hide Pull, Incremented, Seeded, TakenWithin;
    var start, v := st.(local := Exported(cfg, st.vault)), Incremented(st.Known(id).vector, device, st.Known(id).version);
    assert start.Known(id) == st.Known(id);
    IncrementOrWrap(st.Known(id).vector, device, st.Known(id).version);
    if Room(st, device, id) {
      IncrementStaysPositive(st.Known(id).vector, device, st.Known(id).version);
      PullGathers(cfg, start, Tally(0, 0), list, ids, id, v);
    } else {
      var pulled := Pull(cfg, start, Tally(0, 0), list, ids).state.Known(id).vector;
      if Leq(pulled, v) {
        LeqTransitive(st.Known(id).vector, pulled, v);
      }
    }
  }

  lemma LeqReflexive(v: Vector)
    ensures Leq(v, v)
  {}

  /** A changed row whose entity another device deleted concurrently. The pull keeps the row and arranges for a
      push that is later than the deletion; the synchronization then overwrites that, so the row is not pushed
      again, and its clock is that of the push that knew nothing of the deletion. */
  lemma ResurrectionIsForgotten(cfg: Config, st: State, journal: seq<Deletion>, device: DeviceId,
                                list: seq<ServerRecord>, ids: seq<EntityId>, i: nat)
    requires |ids| == |list| && i < |list|
    requires Pull(cfg, st.(local := Exported(cfg, st.vault)), Tally(0, 0), list, ids).err.None?
    requires SparesEntity(list[..i], ids[..i], list[i].entity) && SparesEntity(list[i + 1..], ids[i + 1..], list[i].entity)
    requires Pushable(cfg, st, list[i].entity) && st.vault[list[i].entity].data.Members?
    requires forall d :: d in journal ==> d.entity != list[i].entity
    requires var r := list[i];
      && Wanted(cfg, r) && Read(cfg, r).Some? && r.tombstone && !Stale(st, r)
      && IsConcurrent(st.(local := Exported(cfg, st.vault)), r)
    ensures var r, pulled := list[i], Pull(cfg, st.(local := Exported(cfg, st.vault)), Tally(0, 0), list, ids).state;
      var after := AfterSync(cfg, st, journal, device, list, ids);
      && r.entity in pulled.vault && pulled.vault[r.entity] == st.vault[r.entity] && Pushable(cfg, pulled, r.entity)
      && (Get(pulled.Known(r.entity).vector, device) < MAX_INT64 ==>
            Less(Normalized(r), NextVector(pulled.Known(r.entity), device)))
      && after.vault == pulled.vault && !Pushable(cfg, after, r.entity)
      && after.Known(r.entity).vector == Incremented(st.Known(r.entity).vector, device, st.Known(r.entity).version)
  {
    hide Pull, Step, SparesEntity, Stale, IsConcurrent, Read, Wanted, CredentialAllowed, NextVector, Less,
         PendingStates, Incremented;
    var start, r := st.(local := Exported(cfg, st.vault)), list[i];
    var met, u := PullAround(cfg, start, Tally(0, 0), list, ids, i);
    NewsForSame(cfg, st, start, met, r);
    EditSurvivesDeletion(cfg, met, u, r, ids[i], device);
    PushedIsKnown(cfg, st, journal, device, list, ids, r.entity);
  }

  lemma NewsForSame(cfg: Config, st: State, start: State, met: State, r: ServerRecord)
    requires start == st.(local := Exported(cfg, st.vault)) && SameEntity(start, met, r.entity)
    ensures (Stale(met, r) <==> Stale(st, r)) && (IsConcurrent(met, r) <==> IsConcurrent(start, r))
    ensures r.entity in start.local <==> r.entity in met.local
  {
    hide Compare, Normalized, LocallyChanged;
    assert start.Known(r.entity) == st.Known(r.entity);
  }

  // ----- what is pushed is honest -----

  /** The field clocks in a pushed record are within the record's clock. */
  lemma OutgoingIsHonest(cfg: Config, st: State, device: DeviceId, id: EntityId, recordId: string, sender: DeviceId)
    requires id in st.vault && st.vault[id].data.Members? && BoundedBy(st.Known(id).fields, st.Known(id).vector)
    requires Room(st, device, id) && Get(st.Known(id).vector, device) >= 0
    ensures var row := st.vault[id];
      Honest(OutgoingRecord(cfg.key, recordId, row.kind, id, row.data, PushedState(st.Known(id), row.data.members, device))
        .(deviceId := sender))
  {
    hide BoundedBy, EnvelopeFields, Seeded;
    var known := st.Known(id);
    var v := Incremented(known.vector, device, known.version);
    IncrementDominates(known.vector, device, known.version);
    IncrementStaysPositive(known.vector, device, known.version);
    EnvelopeKeepsBound(st.vault[id].data.members, known.fields, known.vector, v, device);
    assert Cloned(v) == v && device in v;
  }

  lemma OutgoingDeletionIsHonest(key: Key, id: string, d: Deletion, rs: RecordState, sender: DeviceId)
    ensures Honest(OutgoingDeletion(key, id, d, rs).(deviceId := sender))
  {}

  // ----- between two devices -----

  /** The receiving device had nothing of its own to say about the entity. */
  ghost predicate Behind(st: State, r: ServerRecord) { !Stale(st, r) && !IsConcurrent(st, r) }

  /** What one device pushes and another pulls without an edit of its own arrives unchanged, with its field
      clocks, and is not pushed back. */
  lemma PushedArrives(cfg: Config, st: State, t: Tally, id: string, kind: Kind, entity: EntityId, members: Object,
                      rs: RecordState, deviceId: DeviceId, copy: EntityId)
    requires kind in cfg.allowed && (kind == CREDENTIAL ==> CredentialAllowed(cfg.policy, entity, Members(members)))
    requires var r := OutgoingRecord(cfg.key, id, kind, entity, Members(members), rs).(deviceId := deviceId); Behind(st, r)
    ensures var r := OutgoingRecord(cfg.key, id, kind, entity, Members(members), rs).(deviceId := deviceId);
      var o := Step(cfg, st, t, r, copy);
      && o.err.None? && o.state.vault == st.vault[entity := Row(kind, Members(members))]
      && o.state.Known(entity).fields == rs.fields && !o.state.Known(entity).tombstone
      && Leq(Normalized(r), o.state.Known(entity).vector)
      && !Pushable(cfg, o.state, entity)
  {
    hide CredentialAllowed, Compare, Merged, Normalized, LocallyChanged, MaxCounter;
    var r := OutgoingRecord(cfg.key, id, kind, entity, Members(members), rs).(deviceId := deviceId);
    var taken := st.Take(r);
    assert taken.Known(entity) == st.Known(entity) && LocalOf(taken, entity) == LocalOf(st, entity);
    MergeCovers(st.Known(entity).vector, Normalized(r));
  }
}
