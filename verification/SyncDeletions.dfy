/** A pulled deletion deletes, unless a concurrent edit stands against it, and a journalled deletion that is pushed
    deletes on the device that pulls it. */
module SyncDeletions {
  import opened Options
  import opened VersionVectors
  import opened FieldMerge
  import opened SyncSpec
  import opened SyncSafety
  import opened Sync
  import opened SyncRuns
  import opened SyncEdits

  /** A readable deletion that is news, and that no text of its own here is concurrent with. */
  ghost predicate Deletes(cfg: Config, st: State, r: ServerRecord) {
    && r.tombstone && Wanted(cfg, r) && Read(cfg, r).Some? && !Stale(st, r)
    && (IsConcurrent(st, r) ==> r.entity !in st.local)
  }

  /** Nothing is left of the entity but the knowledge that it was deleted, and nothing of it will be pushed. */
  ghost predicate Gone(cfg: Config, st: State, id: EntityId) {
    id !in st.vault && id !in st.local && st.Known(id).tombstone && !Pushable(cfg, st, id)
  }

  lemma DeletionDeletes(cfg: Config, st: State, t: Tally, r: ServerRecord, copy: EntityId)
    requires Deletes(cfg, st, r)
    ensures var o := Step(cfg, st, t, r, copy);
      && o.err.None? && o.tally == Tally(t.applied + 1, t.conflicts)
      && Gone(cfg, o.state, r.entity) && Stale(o.state, r)
      && (forall id :: id != r.entity ==> SameEntity(st, o.state, id))
  {
    hide Normalized, Compare, CredentialAllowed, Merged, Parse, MaxCounter, Stale, IsConcurrent, LocallyChanged;
    TakeKeepsRest(st, r);
    StaleMeansCovered(Step(cfg, st, t, r, copy).state, r);
    MergeCovers(st.Known(r.entity).vector, Normalized(r));
  }

  lemma DeletesSame(cfg: Config, a: State, b: State, r: ServerRecord)
    requires SameEntity(a, b, r.entity)
    ensures Deletes(cfg, a, r) <==> Deletes(cfg, b, r)
  {
    hide Read, Compare, Normalized, LocallyChanged, Wanted;
  }

  lemma GoneSame(cfg: Config, a: State, b: State, id: EntityId)
    requires SameEntity(a, b, id)
    ensures Gone(cfg, a, id) <==> Gone(cfg, b, id)
  {
    hide CredentialAllowed;
  }

  /** The same in a whole pull. */
  lemma PulledDeletionDeletes(cfg: Config, st: State, t: Tally, batch: seq<ServerRecord>, copies: seq<EntityId>, i: nat)
    requires |copies| == |batch| && i < |batch| && OnlyOne(batch, copies, i)
    requires Pull(cfg, st, t, batch, copies).err.None? && Deletes(cfg, st, batch[i])
    ensures Gone(cfg, Pull(cfg, st, t, batch, copies).state, batch[i].entity)
  {
    hide Pull, Step, SparesEntity, Deletes, Gone, Stale, SameEntity;
    var met, u := PullAround(cfg, st, t, batch, copies, i);
    DeletesSame(cfg, st, met, batch[i]);
    DeletionDeletes(cfg, met, u, batch[i], copies[i]);
    GoneSame(cfg, Step(cfg, met, u, batch[i], copies[i]).state, Pull(cfg, st, t, batch, copies).state, batch[i].entity);
  }

  /** The same in a whole synchronization that pushes nothing about the entity. */
  lemma SyncedDeletionDeletes(cfg: Config, st: State, journal: seq<Deletion>, device: DeviceId,
                              list: seq<ServerRecord>, ids: seq<EntityId>, i: nat)
    requires |ids| == |list| && i < |list| && OnlyOne(list, ids, i)
    requires var start := st.(local := Exported(cfg, st.vault));
      Pull(cfg, start, Tally(0, 0), list, ids).err.None? && Deletes(cfg, start, list[i])
    requires list[i].entity !in PendingStates(cfg, st, journal, device)
    ensures Gone(cfg, AfterSync(cfg, st, journal, device, list, ids), list[i].entity)
  {
    hide Pull, OnlyOne, Deletes, PendingStates, Gone;
    var start := st.(local := Exported(cfg, st.vault));
    PulledDeletionDeletes(cfg, start, Tally(0, 0), list, ids, i);
    GoneSame(cfg, Pull(cfg, start, Tally(0, 0), list, ids).state, AfterSync(cfg, st, journal, device, list, ids),
             list[i].entity);
  }

  /** What one device deletes and pushes, another one that has no edit of its own to it deletes too. */
  lemma PushedDeletionDeletes(cfg: Config, st: State, t: Tally, id: string, d: Deletion,
                              records: map<EntityId, RecordState>, device: DeviceId, copy: EntityId)
    requires d.kind in cfg.allowed && (d.kind == CREDENTIAL ==> CredentialAllowed(cfg.policy, d.entity, Members(d.text)))
    requires var r := OutgoingDeletion(cfg.key, id, d, DeletedState(records, d, device)).(deviceId := device);
      !Stale(st, r) && (IsConcurrent(st, r) ==> d.entity !in st.local)
    ensures var r := OutgoingDeletion(cfg.key, id, d, DeletedState(records, d, device)).(deviceId := device);
      var o := Step(cfg, st, t, r, copy);
      o.err.None? && Gone(cfg, o.state, d.entity)
  {
    hide CredentialAllowed, Step, Gone, Stale, IsConcurrent, DeletedState, Normalized;
    var r := OutgoingDeletion(cfg.key, id, d, DeletedState(records, d, device)).(deviceId := device);
    DeletionDeletes(cfg, st, t, r, copy);
  }
}
