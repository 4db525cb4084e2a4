/** What a pulled record leaves behind, and what is pushed, in plain terms: contents, clocks, policy and journal. */
module SyncContents {
  import opened Options
  import opened VersionVectors
  import opened FieldMerge
  import opened SyncSpec
  import opened SyncSafety
  import opened Sync
  import opened SyncRuns
  import opened SyncEdits

  // ----- when a record meets an edit -----

  /** The row has been synchronized before and is no longer what was synchronized. */
  predicate Edited(st: State, id: EntityId) {
    && id in st.records && st.records[id].version > 0 && !st.records[id].tombstone
    && (id !in st.local || st.records[id].hash != Some(Sha256Record(st.local[id])))
  }

  /** A record is concurrent with what is here exactly if the clocks cannot be ordered or the row was edited. */
  lemma ConcurrentIff(st: State, r: ServerRecord)
    ensures IsConcurrent(st, r) <==>
      || (!Leq(st.Known(r.entity).vector, Normalized(r)) && !Leq(Normalized(r), st.Known(r.entity).vector))
      || Edited(st, r.entity)
  {
    hide Normalized, Compare;
    CompareExact(st.Known(r.entity).vector, Normalized(r));
  }

  /** A pull starts from the rows of the kinds that are shared, and from no others. */
  lemma StartsFromShared(cfg: Config, vault: map<EntityId, Row>, id: EntityId)
    ensures LocalOf(State(map[], map[], vault, Exported(cfg, vault)), id) ==
      if id in vault && vault[id].kind in cfg.allowed then Some(vault[id].data) else None
  {}

  /** A deletion never takes away an edited row. */
  lemma DeletionSparesEdit(cfg: Config, st: State, t: Tally, r: ServerRecord, copy: EntityId)
    requires r.tombstone && Edited(st, r.entity) && r.entity in st.local
    ensures var s := Step(cfg, st, t, r, copy).state; s.vault == st.vault && s.local == st.local
  {
    hide Normalized, Compare, CredentialAllowed, Merged, Parse, MaxCounter;
  }

  // ----- what is taken from a record -----

  /** A readable record that is news, and that nothing here is concurrent with. */
  ghost predicate Taken(cfg: Config, st: State, r: ServerRecord) {
    Wanted(cfg, r) && Read(cfg, r).Some? && !r.tombstone && !Stale(st, r) && !IsConcurrent(st, r)
  }

  /** It replaces the row and everything known about it; nothing of it is pushed back. */
  lemma TakenAsItIs(cfg: Config, st: State, t: Tally, r: ServerRecord, copy: EntityId)
    requires Taken(cfg, st, r)
    ensures var o, p := Step(cfg, st, t, r, copy), Read(cfg, r).value; var s := o.state;
      && o.err.None? && o.tally == Tally(t.applied + 1, t.conflicts)
      && s.vault == st.vault[r.entity := Row(r.kind, p.data)] && s.local == st.local[r.entity := p.data]
      && s.Known(r.entity).vector == Merged(st.Known(r.entity).vector, Normalized(r))
      && s.Known(r.entity).fields == p.fields && !s.Known(r.entity).tombstone
      && !Pushable(cfg, s, r.entity)
      && (forall id :: id != r.entity ==> SameEntity(st, s, id))
  {
    hide Normalized, Compare, CredentialAllowed, Merged, Parse, MaxCounter, Stale, IsConcurrent, LocallyChanged;
    TakeKeepsRest(st, r);
  }

  /** From then on any other text in its place, or none, counts as an edit. */
  lemma TakenIsRemembered(cfg: Config, st: State, t: Tally, r: ServerRecord, copy: EntityId, later: State)
    requires Taken(cfg, st, r) && r.entity in later.records && forall d :: Get(st.Known(r.entity).vector, d) >= 0
    requires later.records[r.entity] == Step(cfg, st, t, r, copy).state.Known(r.entity)
    ensures Edited(later, r.entity) <==>
      r.entity !in later.local || later.local[r.entity] != Read(cfg, r).value.data
  {
    hide Normalized, Compare, CredentialAllowed, Parse, MaxCounter, Stale, IsConcurrent, LocallyChanged, Merged;
    TakeKeepsRest(st, r);
    NewsHasCounter(st, r);
  }

  lemma NewsHasCounter(st: State, r: ServerRecord)
    requires !Stale(st, r) && forall d :: Get(st.Known(r.entity).vector, d) >= 0
    ensures MaxCounter(Merged(st.Known(r.entity).vector, Normalized(r))) > 0
  {
    hide Normalized, Compare, Stale, MaxCounter;
    StaleMeansCovered(st, r);
    var known, theirs := st.Known(r.entity).vector, Normalized(r);
    var id :| Get(theirs, id) > Get(known, id);
    assert Get(Merged(known, theirs), id) > 0;
    assert IsMaxCounter(Merged(known, theirs), MaxCounter(Merged(known, theirs)));
  }

  /** An edited row that is no credential is merged with the record instead, which is no conflict to the user. */
  lemma MergeIsNoConflict(cfg: Config, st: State, t: Tally, r: ServerRecord, copy: EntityId)
    requires Merges(cfg, st, r)
    ensures Step(cfg, st, t, r, copy).tally == Tally(t.applied + 1, t.conflicts)
  {
    hide CredentialAllowed, Compare, Merged, Normalized, LocallyChanged, MaxCounter, Parse, Merge;
    TakeKeepsRest(st, r);
  }

  /** A record of an older client carries no field clocks: each of its fields counts as written with the record. */
  lemma BareFieldsGetClocks(cfg: Config, r: ServerRecord, members: Object)
    requires r.body == Sealed(cfg.key, r.Associated(), Bare(members))
    ensures Read(cfg, r).Some? && Read(cfg, r).value.data == Members(members)
    ensures var fields := Read(cfg, r).value.fields;
      && fields.Keys == members.Keys
      && forall name :: name in members ==>
           fields[name] == FieldState(Normalized(r), r.deviceId, Some(Sha256(members[name])))
  {
    hide Normalized;
    assert Cloned(Normalized(r)) == Normalized(r);
  }

  /** It carries no vector either: its version stands for the counter of its device. It is news exactly if that is
      higher than the counter known, and when it is taken that counter becomes its version. */
  lemma VersionIsCounter(cfg: Config, st: State, t: Tally, r: ServerRecord, copy: EntityId)
    requires r.vector == map[] && r.deviceId != "" && r.version > 0
    requires forall d :: Get(st.Known(r.entity).vector, d) >= 0
    ensures Stale(st, r) <==> r.version <= Get(st.Known(r.entity).vector, r.deviceId)
    ensures Taken(cfg, st, r) ==>
      var after := Step(cfg, st, t, r, copy).state.Known(r.entity).vector;
      forall d :: Get(after, d) == if d == r.deviceId then r.version else Get(st.Known(r.entity).vector, d)
  {
    hide Step, Compare, Wanted, Read, IsConcurrent, Pushable, Stale;
    var known := st.Known(r.entity).vector;
    StaleMeansCovered(st, r);
    assert Get(Normalized(r), r.deviceId) == r.version;
    if r.version <= Get(known, r.deviceId) {
      forall d ensures Get(Normalized(r), d) <= Get(known, d) {}
    }
    if Taken(cfg, st, r) {
      TakenAsItIs(cfg, st, t, r, copy);
    }
  }

  /** Without a device or a version it is never news. */
  lemma NamelessIsIgnored(cfg: Config, st: State, t: Tally, r: ServerRecord, copy: EntityId)
    requires r.vector == map[] && (r.deviceId == "" || r.version <= 0)
    requires forall d :: Get(st.Known(r.entity).vector, d) >= 0
    ensures var s := Step(cfg, st, t, r, copy).state;
      s.vault == st.vault && s.records == st.records && s.local == st.local
  {
    hide Receive, Compare;
    StaleMeansCovered(st, r);
    TakeKeepsRest(st, r);
  }

  // ----- what fails -----

  /** A sealed body opens only in the record it was made for: with its kind, entity, version and vector. */
  lemma BodyBelongsToRecord(key: Key, r: ServerRecord, s: ServerRecord)
    requires r.body == s.body && Open(key, r.body, r.Associated()).Some? && Open(key, s.body, s.Associated()).Some?
    ensures r.kind == s.kind && r.entity == s.entity && r.version == s.version && r.vector == s.vector
  {}

  /** Two JSON texts of which one is no object cannot be merged, and no copy can be made of such a credential. */
  ghost predicate Unmergeable(cfg: Config, st: State, r: ServerRecord)
    requires Read(cfg, r).Some?
  {
    && !r.tombstone && IsConcurrent(st, r)
    && if r.kind == CREDENTIAL then !Read(cfg, r).value.data.Members?
       else r.entity in st.local && !(st.local[r.entity].Members? && Read(cfg, r).value.data.Members?)
  }

  /** Which records stop a pull, and with which error: only news of a shared kind can, and then nothing is changed but
      that the record is no longer deferred. */
  lemma FailsIff(cfg: Config, st: State, t: Tally, r: ServerRecord, copy: EntityId)
    ensures var o, met := Step(cfg, st, t, r, copy), r.kind in cfg.allowed && !Stale(st, r);
      var payload := Open(cfg.key, r.body, r.Associated());
      && (o.err == Some(AuthenticationFailed) <==> met && payload.None?)
      && (o.err == Some(InvalidPayload) <==> met && payload == Some(Malformed))
      && (o.err == Some(NotJsonObject) <==>
            met && Read(cfg, r).Some? && !Refused(cfg, r) && Unmergeable(cfg, st, r))
      && (o.err.Some? ==> o.state == st.Take(r) && o.tally == t)
  {
    hide Normalized, Compare, CredentialAllowed, Merged, MaxCounter, Stale, IsConcurrent, LocallyChanged, ConflictCopy,
         Merge, FreshClocks;
    TakeKeepsRest(st, r);
  }

  // ----- credentials -----

  /** The credential's own setting comes first, then that of its connections, then the default. */
  lemma PolicyOrder(policy: Policy, id: EntityId, members: Object)
    ensures var allowed := CredentialAllowed(policy, id, Members(members));
      var own := if "syncOverride" in members then members["syncOverride"] else "";
      && (own == "true" ==> allowed) && (own == "false" ==> !allowed)
      && (own != "true" && own != "false" && id in policy.overrides ==> allowed == policy.overrides[id])
      && (own != "true" && own != "false" && id !in policy.overrides ==> allowed == policy.default)
  {}

  /** A credential that was changed on both sides: the local one stays as it is, and the remote one is kept under a
      new identifier, with a mark behind its name. */
  lemma ConflictKeepsBoth(cfg: Config, st: State, t: Tally, r: ServerRecord, copy: EntityId, name: string)
    requires ConflictingCredential(cfg, st, r) && Read(cfg, r).Some? && copy != r.entity
    requires var data := Read(cfg, r).value.data;
      data.Members? && "name" in data.members && data.members["name"] == "\"" + name + "\""
    ensures var o, members := Step(cfg, st, t, r, copy), Read(cfg, r).value.data.members;
      && o.err.None? && o.tally == Tally(t.applied + 1, t.conflicts + 1)
      && SameEntity(st, o.state, r.entity)
      && copy in o.state.vault && o.state.vault[copy].kind == r.kind && o.state.vault[copy].data.Members?
      && var kept := o.state.vault[copy].data.members;
         && kept.Keys == members.Keys + {"id", "name"}
         && kept["id"] == "\"" + copy + "\""
         && kept["name"] == "\"" + name + "\U{FF08}\U{540C}\U{6B65}\U{51B2}\U{7A81}\U{FF09}" + "\""
         && forall key :: key in members && key != "id" && key != "name" ==> kept[key] == members[key]
  {
    hide Normalized, Compare, CredentialAllowed, Merged, Parse, MaxCounter, Stale, IsConcurrent, LocallyChanged,
         ConflictCopy;
    TakeKeepsRest(st, r);
    CopyIsMarked(Read(cfg, r).value.data.members, copy, name);
  }

  lemma CopyIsMarked(members: Object, copy: EntityId, name: string)
    requires "name" in members && members["name"] == "\"" + name + "\""
    ensures var kept := ConflictCopy(members, copy);
      && kept.Keys == members.Keys + {"id", "name"}
      && kept["id"] == "\"" + copy + "\""
      && kept["name"] == "\"" + name + "\U{FF08}\U{540C}\U{6B65}\U{51B2}\U{7A81}\U{FF09}" + "\""
      && forall key :: key in members && key != "id" && key != "name" ==> kept[key] == members[key]
  {
    var quoted := "\"" + name + "\"";
    assert quoted[1..|quoted| - 1] == name;
  }

  // ----- what is pushed -----

  /** Exactly the rows of the kinds that are shared whose text is not the one last synchronized: new ones, and
      changed ones. */
  lemma PushedRows(cfg: Config, st: State, device: DeviceId, id: EntityId)
    ensures id in RecordStates(cfg, st, device) <==>
      && id in st.vault && st.vault[id].kind in cfg.allowed && st.vault[id].data.Members?
      && (st.vault[id].kind == "credential" ==> CredentialAllowed(cfg.policy, id, st.vault[id].data))
      && (id in st.records ==> st.records[id].hash != Some(Sha256Record(st.vault[id].data)))
  {
    hide CredentialAllowed, PushedState;
  }

  /** What is remembered of a pushed row: its version is its device's counter, and from then on any other text in its
      place, or none, counts as an edit. */
  lemma PushedIsRemembered(cfg: Config, st: State, device: DeviceId, id: EntityId, later: State)
    requires id in RecordStates(cfg, st, device) && Room(st, device, id)
    requires id in later.records && later.records[id] == RecordStates(cfg, st, device)[id]
    ensures var rs := later.records[id];
      && device in rs.vector && rs.version == rs.vector[device] && rs.version > 0
      && id in st.vault
      && (Edited(later, id) <==> id !in later.local || later.local[id] != st.vault[id].data)
  {
    hide CredentialAllowed, Seeded;
    SeededCounters(st.Known(id).vector, device, st.Known(id).version);
  }

  /** An entity whose deletion was pushed has nothing left to be edited: what comes later from elsewhere is news. */
  lemma DeletionIsRemembered(records: map<EntityId, RecordState>, d: Deletion, device: DeviceId, later: State)
    requires d.entity in later.records && later.records[d.entity] == DeletedState(records, d, device)
    ensures later.Known(d.entity).tombstone && !Edited(later, d.entity)
    ensures later.Known(d.entity).vector ==
      Incremented(if d.entity in records then records[d.entity].vector else map[], device,
                  if d.entity in records then records[d.entity].version else 0)
  {}

  /** A deletion is worth pushing exactly if the entity has been synchronized before. */
  lemma {:induction false} WorthPushingIff(records: map<EntityId, RecordState>, journal: seq<Deletion>, d: Deletion)
    ensures d in WorthPushing(records, journal) <==>
      d in journal && d.entity in records && records[d.entity].version != 0
    decreases |journal|
  {
    if journal != [] {
      var last, rest := journal[|journal| - 1], journal[..|journal| - 1];
      WorthPushingIff(records, rest, d);
      assert journal == rest + [last];
    }
  }
}
