/** The synchronization client as the source keeps it: maps that pull and push update in place. Every
    step of a pull is proved equal to its transition in `SyncSpec`. */
module Sync {
  import opened Options
  import opened VersionVectors
  import opened FieldMerge
  import opened SyncSpec
  import opened SyncEnvelope

  datatype Deletion = Deletion(kind: Kind, entity: EntityId, text: Object)

  class Client {
    const cfg: Config
    const device: DeviceId
    var records: map<EntityId, RecordState>
    var deferred: map<string, ServerRecord>
    var vault: map<EntityId, Row>
    var local: map<EntityId, Json>
    var journal: seq<Deletion>
    var cursor: nat

    ghost function Model(): State
      reads this`records, this`deferred, this`vault, this`local
    {
      State(records, deferred, vault, local)
    }

    constructor (cfg: Config, device: DeviceId, records: map<EntityId, RecordState>, deferred: map<string, ServerRecord>,
                 vault: map<EntityId, Row>, journal: seq<Deletion>, cursor: nat)
      ensures Model() == State(records, deferred, vault, map[])
      ensures this.cfg == cfg && this.device == device && this.journal == journal && this.cursor == cursor
    {
      this.cfg, this.device := cfg, device;
      this.records, this.deferred, this.vault, this.local := records, deferred, vault, map[];
      this.journal, this.cursor := journal, cursor;
    }

    function Known(id: EntityId): RecordState
      reads this`records
    {
      if id in records then records[id] else UNKNOWN
    }

    // ----- one pulled record -----

    method Store(id: EntityId, kind: Kind, data: Json, vector: Vector, fields: Fields)
      modifies this`records, this`vault, this`local
      ensures Model() == old(Model()).Store(id, kind, data).Remember(id, Synced(vector, data, fields, false))
    {
      vault := vault[id := Row(kind, data)];
      local := local[id := data];
      var version := MaxVector(vector);
      records := records[id := RecordState(version, vector, Some(Sha256Record(data)), fields, false)];
    }

    method Delete(r: ServerRecord, p: Parsed, vector: Vector, concurrent: bool, t: Tally) returns (t': Tally)
      modifies this`records, this`vault, this`local
      ensures Outcome(Model(), t', None) == ApplyDeletion(old(Model()), t, r, p, vector, concurrent)
    {
      var id := r.entity;
      var version := MaxVector(vector);
      if concurrent && id in local {
        records := records[id := RecordState(version, vector, None, Known(id).fields, false)];
        return Tally(t.applied + 1, t.conflicts + 1);
      }
      vault := vault - {id};
      local := local - {id};
      records := records[id := RecordState(version, vector, Some(Sha256Record(p.data)), p.fields, true)];
      t' := t.(applied := t.applied + 1);
    }

    method MergeInto(r: ServerRecord, p: Parsed, vector: Vector, t: Tally) returns (t': Tally, err: Option<SyncError>)
      requires r.entity in local
      modifies this`records, this`vault, this`local
      ensures Outcome(Model(), t', err) == ApplyMerge(old(Model()), t, r, p, vector)
    {
      hide Merge, MaxCounter;
      var mine := local[r.entity];
      if !mine.Members? || !p.data.Members? {
        return t, Some(NotJsonObject);
      }
      var merged := MergeJSONFields(Document(mine.members, Known(r.entity).fields), Document(p.data.members, p.fields));
      Store(r.entity, r.kind, Members(merged.members), vector, merged.fields);
      t', err := t.(applied := t.applied + 1), None;
    }

    method CopyCredential(r: ServerRecord, p: Parsed, vector: Vector, copy: EntityId, t: Tally)
      returns (t': Tally, err: Option<SyncError>)
      modifies this`records, this`vault, this`local
      ensures Outcome(Model(), t', err) == ApplyCredentialConflict(old(Model()), t, r, p, vector, copy)
    {
      hide ConflictCopy, MaxCounter;
      if !p.data.Members? {
        return t, Some(NotJsonObject);
      }
      Store(copy, r.kind, Members(ConflictCopy(p.data.members, copy)), vector, p.fields);
      t', err := Tally(t.applied + 1, t.conflicts + 1), None;
    }

    method Integrate(r: ServerRecord, p: Parsed, relation: Relation, copy: EntityId, t: Tally)
      returns (t': Tally, err: Option<SyncError>)
      requires relation == Compare(Known(r.entity).vector, Normalized(r))
      modifies this`records, this`vault, this`local
      ensures Outcome(Model(), t', err) == Apply(old(Model()), t, r, p, copy)
    {
      hide Merge, ConflictCopy, MaxCounter, Merged, Normalized, Compare, ApplyDeletion, ApplyMerge,
           ApplyCredentialConflict;
      var previous := Known(r.entity);
      var mine := if r.entity in local then Some(local[r.entity]) else None;
      var concurrent := relation == Concurrent || LocallyChanged(previous, mine);
      var vector := MergeVectors(previous.vector, Normalized(r));
      if r.tombstone {
        t' := Delete(r, p, vector, concurrent, t);
        err := None;
      } else if concurrent && r.kind == CREDENTIAL {
        t', err := CopyCredential(r, p, vector, copy, t);
      } else if concurrent && r.entity in local {
        t', err := MergeInto(r, p, vector, t);
      } else {
        Store(r.entity, r.kind, p.data, vector, p.fields);
        t', err := t.(applied := t.applied + 1), None;
      }
    }

    method ReceiveRecord(r: ServerRecord, relation: Relation, copy: EntityId, t: Tally)
      returns (t': Tally, err: Option<SyncError>)
      requires relation == Compare(Known(r.entity).vector, Normalized(r))
      modifies this`records, this`deferred, this`vault, this`local
      ensures Outcome(Model(), t', err) == Receive(cfg, old(Model()), t, r, copy)
    {
      hide Apply, Normalized, Compare, CredentialAllowed;
      t' := t;
      var payload := Open(cfg.key, r.body, r.Associated());
      if payload.None? {
        return t, Some(AuthenticationFailed);
      }
      var parsed := Parse(payload.value, Normalized(r), r.deviceId);
      if parsed.None? {
        return t, Some(InvalidPayload);
      }
      if r.kind == CREDENTIAL && !CredentialAllowed(cfg.policy, r.entity, parsed.value.data) {
        deferred := deferred[r.id := r];
        return t, None;
      }
      t', err := Integrate(r, parsed.value, relation, copy, t);
    }

    method PullRecord(r: ServerRecord, copy: EntityId, t: Tally) returns (t': Tally, err: Option<SyncError>)
      modifies this`records, this`deferred, this`vault, this`local
      ensures Outcome(Model(), t', err) == Step(cfg, old(Model()), t, r, copy)
    {
      hide Receive, Normalized, Compare;
      if r.kind !in cfg.allowed {
        deferred := deferred[r.id := r];
        return t, None;
      }
      deferred := deferred - {r.id};
      var relation := CompareVectors(Known(r.entity).vector, Normalized(r));
      if relation == Equal || relation == After {
        return t, None;
      }
      t', err := ReceiveRecord(r, relation, copy, t);
    }

    // ----- the whole pull -----

    /** The deferred records, in some order. */
    method ListDeferred() returns (list: seq<ServerRecord>)
      requires forall id :: id in deferred ==> deferred[id].id == id
      ensures Lists(list, deferred)
    {
      list := [];
      var ids := deferred.Keys;
      while ids != {}
        invariant ids <= deferred.Keys
        invariant forall r :: r in list ==> r.id in deferred && deferred[r.id] == r
        invariant forall id :: id in deferred && id !in ids ==> deferred[id] in list
        decreases |ids|
      {
        var id :| id in ids;
        ids := ids - {id};
        list := list + [deferred[id]];
      }
    }

    method Export() returns (texts: map<EntityId, Json>)
      ensures texts == map id | id in vault && vault[id].kind in cfg.allowed :: vault[id].data
    {
      texts := map[];
      var ids := vault.Keys;
      while ids != {}
        invariant ids <= vault.Keys
        invariant texts == map id | id in vault && id !in ids && vault[id].kind in cfg.allowed :: vault[id].data
        decreases |ids|
      {
        var id :| id in ids;
        ids := ids - {id};
        if vault[id].kind in cfg.allowed {
          texts := texts[id := vault[id].data];
        }
      }
    }

    /** What was deferred is tried again before the server's answer; `copies` are the identifiers drawn. */
    method PullBatch(batch: seq<ServerRecord>, copies: seq<EntityId>) returns (t: Tally, err: Option<SyncError>)
      requires |copies| == |batch|
      modifies this`records, this`deferred, this`vault, this`local
      ensures Outcome(Model(), t, err) == Pull(cfg, old(Model()), Tally(0, 0), batch, copies)
    {
      hide Step;
      t, err := Tally(0, 0), None;
      var i := 0;
      assert batch[0..] == batch && copies[0..] == copies;
      while i < |batch|
        invariant i <= |batch| && err.None?
        invariant Pull(cfg, old(Model()), Tally(0, 0), batch, copies) == Pull(cfg, Model(), t, batch[i..], copies[i..])
      {
        assert batch[i..][1..] == batch[i + 1..] && copies[i..][1..] == copies[i + 1..];
        t, err := PullRecord(batch[i], copies[i], t);
        if err.Some? {
          return;
        }
        i := i + 1;
      }
    }

    // ----- what is pushed -----

    /** The changed rows: what will be known about them, and the sealed records for the server. */
    method CollectRecords(drawn: EntityId -> string)
      returns (pending: map<EntityId, RecordState>, outgoing: seq<ServerRecord>, err: Option<SyncError>)
      ensures err.Some? <==> Unsealable(cfg, Model())
      ensures err.None? ==> pending == RecordStates(cfg, Model(), device)
      ensures err.None? ==> forall o :: o in outgoing ==> o.entity in pending && Carries(o, drawn, pending[o.entity])
      ensures err.None? ==> forall id :: id in pending ==> exists o :: o in outgoing && o.entity == id
    {
      hide PushedState, Pushable, Carries;
      pending, outgoing, err := map[], [], None;
      var ids := vault.Keys;
      while ids != {}
        invariant ids <= vault.Keys && err.None?
        invariant forall id :: id in pending <==> id in vault && id !in ids && Pushable(cfg, Model(), id)
        invariant forall id :: id in pending ==>
          vault[id].data.Members? && pending[id] == PushedState(Known(id), vault[id].data.members, device)
        invariant forall o :: o in outgoing ==> o.entity in pending && Carries(o, drawn, pending[o.entity])
        invariant forall id :: id in pending ==> exists o :: o in outgoing && o.entity == id
        decreases |ids|
      {
        var id :| id in ids;
        ids := ids - {id};
        var wanted := IsPushable(id);
        if wanted {
          var next, record;
          next, record, err := SealRecord(id, drawn);
          if err.Some? {
            assert Pushable(cfg, Model(), id);
            return;
          }
          pending, outgoing := pending[id := next], outgoing + [record];
          assert record in outgoing && record.entity == id;
        }
      }
      AllPushable(cfg, Model(), device, pending);
    }

    method IsPushable(id: EntityId) returns (wanted: bool)
      requires id in vault
      ensures wanted == Pushable(cfg, Model(), id)
    {
      hide CredentialAllowed;
      wanted := vault[id].kind in cfg.allowed
        && (vault[id].kind == CREDENTIAL ==> CredentialAllowed(cfg.policy, id, vault[id].data))
        && Known(id).hash != Some(Sha256Record(vault[id].data));
    }

    /** The record the server gets for a row: its text and field clocks, sealed under its version. */
    ghost predicate Carries(o: ServerRecord, drawn: EntityId -> string, rs: RecordState)
      reads this`vault
    {
      && o.entity in vault
      && o == OutgoingRecord(cfg.key, drawn(o.entity), vault[o.entity].kind, o.entity, vault[o.entity].data, rs)
    }

    method SealRecord(id: EntityId, drawn: EntityId -> string)
      returns (next: RecordState, record: ServerRecord, err: Option<SyncError>)
      requires id in vault
      ensures err.None? <==> vault[id].data.Members?
      ensures err.None? ==> next == PushedState(Known(id), vault[id].data.members, device)
      ensures err.None? ==> record.entity == id && Carries(record, drawn, next)
    {
      hide EnvelopeFields;
      var row := vault[id];
      var vector := IncrementVector(Known(id).vector, device, Known(id).version);
      var payload, fields;
      payload, fields, err := MakeSyncEnvelope(row.data, Known(id).fields, vector, device);
      next := RecordState(vector[device], vector, Some(Sha256Record(row.data)), fields, false);
      record := OutgoingRecord(cfg.key, drawn(id), row.kind, id, row.data, next);
    }

    /** The journalled deletions of entities the server knows; the others are forgotten at once. */
    method CollectDeletions(drawn: EntityId -> string)
      returns (pending: map<EntityId, RecordState>, outgoing: seq<ServerRecord>)
      modifies this`journal
      ensures journal == WorthPushing(records, old(journal))
      ensures pending == DeletedStates(records, journal, device)
      ensures |outgoing| == |journal|
      ensures forall i :: 0 <= i < |journal| ==> outgoing[i] == OutgoingDeletion(
        cfg.key, drawn(journal[i].entity), journal[i], DeletedState(records, journal[i], device))
    {
      hide DeletedState, WorthPushing, DeletedStates;
      pending, outgoing := map[], [];
      var kept, i := [], 0;
      NothingDeleted(records, device);
      assert journal[..0] == [];
      while i < |journal|
        invariant i <= |journal| && journal == old(journal)
        invariant kept == WorthPushing(records, journal[..i])
        invariant pending == DeletedStates(records, kept, device)
        invariant |outgoing| == |kept|
        invariant forall j :: 0 <= j < |kept| ==> outgoing[j] == OutgoingDeletion(
          cfg.key, drawn(kept[j].entity), kept[j], DeletedState(records, kept[j], device))
      {
        var d := journal[i];
        assert journal[..i + 1] == journal[..i] + [d];
        WorthPushingOne(records, journal[..i], d);
        if d.entity in records && records[d.entity].version != 0 {
          var next := StateOfDeletion(d);
          DeletedStatesOne(records, kept, d, device);
          pending := pending[d.entity := next];
          outgoing := outgoing + [OutgoingDeletion(cfg.key, drawn(d.entity), d, next)];
          kept := kept + [d];
        }
        i := i + 1;
      }
      assert journal[..i] == journal;
      journal := kept;
    }

    method StateOfDeletion(d: Deletion) returns (next: RecordState)
      ensures next == DeletedState(records, d, device)
    {
      hide Incremented;
      IncrementHasDevice(Known(d.entity).vector, device, Known(d.entity).version);
      var vector := IncrementVector(Known(d.entity).vector, device, Known(d.entity).version);
      next := RecordState(vector[device], vector, Some(Sha256Record(Members(d.text))), map[], true);
    }

    /** What was deferred is tried again before the server's answer, on freshly exported texts. */
    method PullResponse(response: seq<ServerRecord>, copies: nat -> EntityId)
      returns (t: Tally, err: Option<SyncError>, ghost list: seq<ServerRecord>, ghost ids: seq<EntityId>)
      requires forall id :: id in deferred ==> deferred[id].id == id
      modifies this`records, this`deferred, this`vault, this`local
      ensures Lists(list, old(deferred)) && |ids| == |list + response|
      ensures forall i :: 0 <= i < |ids| ==> ids[i] == copies(i)
      ensures Outcome(Model(), t, err) ==
        Pull(cfg, old(Model()).(local := Exported(cfg, old(vault))), Tally(0, 0), list + response, ids)
    {
      hide Pull;
      local := Export();
      var pending := ListDeferred();
      list := pending;
      var batch := pending + response;
      var drawn := seq(|batch|, i requires 0 <= i < |batch| => copies(i));
      ids := drawn;
      t, err := PullBatch(batch, drawn);
    }

    /** One synchronization. `pushed` and `response` are the server's answers. Only when everything
        succeeds do the pushed states replace what the pull wrote, and the cursor move. A pull that fails
        half-way leaves what it had already stored. The journal keeps what is worth pushing until it is pushed. */
    method Synchronize(drawn: EntityId -> string, copies: nat -> EntityId,
                       pushed: bool, response: Option<(seq<ServerRecord>, nat)>)
      returns (ok: bool, t: Tally, ghost list: seq<ServerRecord>, ghost ids: seq<EntityId>)
      requires forall id :: id in deferred ==> deferred[id].id == id
      modifies this
      ensures !ok ==> cursor == old(cursor)
      ensures !ok ==>
        || Model() == old(Model())
        || (response.Some? && Lists(list, old(deferred)) && |ids| == |list + response.value.0| &&
            var o := Pull(cfg, old(Model()).(local := Exported(cfg, old(vault))), Tally(0, 0), list + response.value.0, ids);
            o.err.Some? && Model() == o.state)
      ensures !ok && Unsealable(cfg, old(Model())) ==> Model() == old(Model()) && journal == old(journal)
      ensures !ok && !Unsealable(cfg, old(Model())) ==>
        journal == if pushed then [] else WorthPushing(old(records), old(journal))
      ensures ok ==> response.Some? && cursor == response.value.1 && journal == []
      ensures ok ==> Lists(list, old(deferred)) && |ids| == |list + response.value.0|
      ensures ok ==>
        var o := Pull(cfg, old(Model()).(local := Exported(cfg, old(vault))), Tally(0, 0), list + response.value.0, ids);
        && o.err.None? && o.tally == t
        && Model() == Overwritten(o.state, PendingStates(cfg, old(Model()), old(journal), device))
    {
      hide Pull, PendingStates, RecordStates, DeletedStates, WorthPushing, Unsealable;
      ok, t, list, ids := false, Tally(0, 0), [], [];
      var changed, outgoing, err := CollectRecords(drawn);
      if err.Some? {
        return;
      }
      var deleted, tombstones := CollectDeletions(drawn);
      if outgoing + tombstones != [] {
        if !pushed {
          return;
        }
        journal := [];
      }
      if response.None? {
        return;
      }
      PendingIsBoth(cfg, old(Model()), old(journal), device);
      t, err, list, ids := PullResponse(response.value.0, copies);
      if err.Some? {
        return;
      }
      records := records + (changed + deleted);
      cursor := response.value.1;
      ok := true;
    }
  }

  /** What a synchronization will know about the entities it pushed. */
  function PendingStates(cfg: Config, st: State, journal: seq<Deletion>, device: DeviceId): map<EntityId, RecordState> {
    RecordStates(cfg, st, device) + DeletedStates(st.records, WorthPushing(st.records, journal), device)
  }

  lemma PendingIsBoth(cfg: Config, st: State, journal: seq<Deletion>, device: DeviceId)
    ensures PendingStates(cfg, st, journal, device) ==
      RecordStates(cfg, st, device) + DeletedStates(st.records, WorthPushing(st.records, journal), device)
  {}

  function Overwritten(st: State, pending: map<EntityId, RecordState>): State { st.(records := st.records + pending) }

  function WorthPushing(records: map<EntityId, RecordState>, journal: seq<Deletion>): seq<Deletion>
    decreases |journal|
  {
    if journal == [] then []
    else
      var d := journal[|journal| - 1];
      WorthPushing(records, journal[..|journal| - 1]) +
        if d.entity in records && records[d.entity].version != 0 then [d] else []
  }

  function DeletedStates(records: map<EntityId, RecordState>, journal: seq<Deletion>,
                         device: DeviceId): map<EntityId, RecordState>
    decreases |journal|
  {
    if journal == [] then map[]
    else
      var d := journal[|journal| - 1];
      DeletedStates(records, journal[..|journal| - 1], device)[d.entity := DeletedState(records, d, device)]
  }

  lemma NothingDeleted(records: map<EntityId, RecordState>, device: DeviceId)
    ensures WorthPushing(records, []) == [] && DeletedStates(records, [], device) == map[]
  {}

  lemma WorthPushingOne(records: map<EntityId, RecordState>, journal: seq<Deletion>, d: Deletion)
    ensures WorthPushing(records, journal + [d]) ==
      WorthPushing(records, journal) + if d.entity in records && records[d.entity].version != 0 then [d] else []
  {
    assert (journal + [d])[..|journal|] == journal;
  }

  lemma DeletedStatesOne(records: map<EntityId, RecordState>, journal: seq<Deletion>, d: Deletion, device: DeviceId)
    ensures DeletedStates(records, journal + [d], device) ==
      DeletedStates(records, journal, device)[d.entity := DeletedState(records, d, device)]
  {
    hide DeletedState;
    assert (journal + [d])[..|journal|] == journal;
  }

  lemma IncrementHasDevice(v: Vector, device: DeviceId, version: int64)
    ensures device in Incremented(v, device, version)
  {}

  /** What will be known about a deleted entity. */
  function DeletedState(records: map<EntityId, RecordState>, d: Deletion, device: DeviceId): RecordState {
    var previous := if d.entity in records then records[d.entity] else UNKNOWN;
    var vector := Incremented(previous.vector, device, previous.version);
    RecordState(vector[device], vector, Some(Sha256Record(Members(d.text))), map[], true)
  }

  /** The rows to push, by the same test as in the client. */
  predicate Pushable(cfg: Config, st: State, id: EntityId) {
    && id in st.vault && st.vault[id].kind in cfg.allowed
    && (st.vault[id].kind == CREDENTIAL ==> CredentialAllowed(cfg.policy, id, st.vault[id].data))
    && st.Known(id).hash != Some(Sha256Record(st.vault[id].data))
  }

  /** A changed row is no object, so no envelope can be made of it. */
  ghost predicate Unsealable(cfg: Config, st: State) { exists id :: Pushable(cfg, st, id) && !st.vault[id].data.Members? }

  function RecordStates(cfg: Config, st: State, device: DeviceId): map<EntityId, RecordState> {
    map id | id in st.vault && Pushable(cfg, st, id) && st.vault[id].data.Members? ::
      PushedState(st.Known(id), st.vault[id].data.members, device)
  }

  /** The states of all pushable rows, each an object. */
  lemma AllPushable(cfg: Config, st: State, device: DeviceId, pending: map<EntityId, RecordState>)
    requires forall id :: id in pending <==> id in st.vault && Pushable(cfg, st, id)
    requires forall id :: id in pending ==>
      st.vault[id].data.Members? && pending[id] == PushedState(st.Known(id), st.vault[id].data.members, device)
    ensures pending == RecordStates(cfg, st, device)
    ensures forall id :: Pushable(cfg, st, id) ==> id in st.vault && st.vault[id].data.Members?
  {
    hide PushedState, CredentialAllowed;
  }

  function OutgoingDeletion(key: Key, id: string, d: Deletion, rs: RecordState): ServerRecord {
    ServerRecord(id, d.kind, d.entity, "", rs.version, rs.vector, true,
                 Seal(key, Bare(d.text), Aad(d.kind, d.entity, rs.version, rs.vector)))
  }

  /** What is known about a record once it is pushed. */
  function PushedState(previous: RecordState, members: Object, device: DeviceId): RecordState {
    var vector := Incremented(previous.vector, device, previous.version);
    RecordState(vector[device], vector, Some(Sha256Record(Members(members))),
                EnvelopeFields(members, previous.fields, vector, device), false)
  }

  function OutgoingRecord(key: Key, id: string, kind: Kind, entity: EntityId, data: Json, rs: RecordState): ServerRecord {
    ServerRecord(id, kind, entity, "", rs.version, rs.vector, false,
                 Seal(key, Envelope(data, rs.fields), Aad(kind, entity, rs.version, rs.vector)))
  }
}
