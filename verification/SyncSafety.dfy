/** What pulling keeps: clocks never go back, other entities are left alone, a concurrent edit survives a
    deletion. */
module SyncSafety {
  import opened Options
  import opened VersionVectors
  import opened FieldMerge
  import opened SyncSpec

  // ----- clocks never go back -----

  ghost predicate NoLower(a: State, b: State) { forall id :: Leq(a.Known(id).vector, b.Known(id).vector) }

  lemma NoLowerTransitive(a: State, b: State, c: State)
    requires NoLower(a, b) && NoLower(b, c)
    ensures NoLower(a, c)
  {
    forall id ensures Leq(a.Known(id).vector, c.Known(id).vector) {
      LeqTransitive(a.Known(id).vector, b.Known(id).vector, c.Known(id).vector);
    }
  }

  /** The entity whose record state an applied record writes. */
  ghost function Target(st: State, r: ServerRecord, copy: EntityId): EntityId {
    if !r.tombstone && IsConcurrent(st, r) && r.kind == CREDENTIAL then copy else r.entity
  }

  /** `b` differs from `a` at most in what is stored and known for `id`, which gets clock `vector`. */
  ghost predicate Writes(a: State, b: State, id: EntityId, vector: Vector) {
    && b.deferred == a.deferred
    && id in b.records && b.records == a.records[id := b.records[id]] && b.records[id].vector == vector
    && (forall other :: other != id ==> (other in b.vault <==> other in a.vault) && (other in b.local <==> other in a.local))
    && (forall other :: other != id && other in b.vault ==> b.vault[other] == a.vault[other])
    && (forall other :: other != id && other in b.local ==> b.local[other] == a.local[other])
  }

  lemma StoreWrites(st: State, id: EntityId, kind: Kind, data: Json, rs: RecordState)
    ensures Writes(st, st.Store(id, kind, data).Remember(id, rs), id, rs.vector)
  {}

  lemma EraseWrites(st: State, id: EntityId, rs: RecordState)
    ensures Writes(st, st.Erase(id).Remember(id, rs), id, rs.vector)
    ensures Writes(st, st.Remember(id, rs), id, rs.vector)
  {}

  lemma ApplyWrites(st: State, t: Tally, r: ServerRecord, p: Parsed, copy: EntityId)
    ensures var o, vector := Apply(st, t, r, p, copy), Merged(st.Known(r.entity).vector, Normalized(r));
      if o.err.None? then Writes(st, o.state, Target(st, r, copy), vector) else o.state == st
  {
    hide Merge, ConflictCopy, IsConcurrent, Merged, Normalized, MaxCounter, Writes;
    var o, id := Apply(st, t, r, p, copy), Target(st, r, copy);
    if o.err.None? {
      var rs := o.state.records[id];
      if r.tombstone {
        EraseWrites(st, id, rs);
      } else {
        StoreWrites(st, id, r.kind, o.state.vault[id].data, rs);
      }
    }
  }

  lemma StepWrites(cfg: Config, st: State, t: Tally, r: ServerRecord, copy: EntityId)
    ensures var o := Step(cfg, st, t, r, copy); var s, taken := o.state, st.Take(r);
      && ((s.records == st.records && s.vault == st.vault && s.local == st.local)
          || (!Stale(st, r) && Writes(taken, s, Target(st, r, copy), Merged(st.Known(r.entity).vector, Normalized(r)))))
      && (o.err.None? && r.kind != CREDENTIAL && r.kind in cfg.allowed && !Stale(st, r) ==>
          Writes(taken, s, r.entity, Merged(st.Known(r.entity).vector, Normalized(r))))
  {
    hide Apply, CredentialAllowed, Compare, Normalized, Merged, LocallyChanged, Writes;
    var taken := st.Take(r);
    assert taken.Known(r.entity) == st.Known(r.entity);
    match Open(cfg.key, r.body, r.Associated())
    case None =>
    case Some(payload) =>
      match Parse(payload, Normalized(r), r.deviceId)
      case None =>
      case Some(p) => ApplyWrites(taken, t, r, p, copy);
  }

  lemma MergeCovers(a: Vector, b: Vector)
    ensures Leq(a, Merged(a, b)) && Leq(b, Merged(a, b)) && Leq(map[], Merged(a, b))
  {
    MergeIsLeastUpperBound(a, b, map[]);
  }

  /** A conflicting credential gets an identifier that is not in use. */
  ghost predicate FreshCopy(st: State, r: ServerRecord, copy: EntityId) {
    r.kind == CREDENTIAL ==> copy !in st.records && copy !in st.vault
  }

  lemma StepNeverLowers(cfg: Config, st: State, t: Tally, r: ServerRecord, copy: EntityId)
    requires FreshCopy(st, r, copy)
    ensures NoLower(st, Step(cfg, st, t, r, copy).state)
  {
    hide Step, Stale, Merged, Normalized, IsConcurrent;
    StepWrites(cfg, st, t, r, copy);
    MergeCovers(st.Known(r.entity).vector, Normalized(r));
  }

  /** The copies of a batch are distinct and not in use. */
  ghost predicate FreshCopies(st: State, batch: seq<ServerRecord>, copies: seq<EntityId>) {
    && |copies| == |batch|
    && (forall i :: 0 <= i < |batch| ==> FreshCopy(st, batch[i], copies[i]))
    && (forall i, j :: 0 <= i < |batch| && 0 <= j < |batch| && copies[i] == batch[j].entity ==> batch[i].kind != CREDENTIAL)
    && (forall i, j :: 0 <= i < j < |batch| && copies[i] == copies[j] ==> batch[j].kind != CREDENTIAL)
  }

  lemma StepKeepsFresh(cfg: Config, st: State, t: Tally, batch: seq<ServerRecord>, copies: seq<EntityId>)
    requires batch != [] && FreshCopies(st, batch, copies)
    ensures FreshCopies(Step(cfg, st, t, batch[0], copies[0]).state, batch[1..], copies[1..])
  {
    hide Step, Stale, Merged, Normalized, IsConcurrent;
    var s := Step(cfg, st, t, batch[0], copies[0]).state;
    StepWrites(cfg, st, t, batch[0], copies[0]);
    forall i | 1 <= i < |batch| ensures FreshCopy(s, batch[i], copies[i]) {
      assert FreshCopy(st, batch[i], copies[i]);
    }
  }

  /** No record's clock is ever lowered by a pull, not even by one that ends in an error. */
  lemma {:induction false} PullNeverLowers(cfg: Config, st: State, t: Tally, batch: seq<ServerRecord>,
                                           copies: seq<EntityId>)
    requires FreshCopies(st, batch, copies)
    ensures NoLower(st, Pull(cfg, st, t, batch, copies).state)
    decreases |batch|
  {
    hide Step, NoLower;
    if batch != [] {
      var first := Step(cfg, st, t, batch[0], copies[0]);
      assert FreshCopy(st, batch[0], copies[0]);
      StepNeverLowers(cfg, st, t, batch[0], copies[0]);
      if first.err.None? {
        StepKeepsFresh(cfg, st, t, batch, copies);
        PullNeverLowers(cfg, first.state, first.tally, batch[1..], copies[1..]);
        NoLowerTransitive(st, first.state, Pull(cfg, st, t, batch, copies).state);
      }
    } else {
      NoLowerReflexive(st);
    }
  }

  lemma NoLowerReflexive(st: State)
    ensures NoLower(st, st)
  {}

  // ----- what a record comes to -----

  /** Decryption and parsing succeed, and the policy keeps the credential out. */
  ghost predicate Refused(cfg: Config, r: ServerRecord) {
    r.kind == CREDENTIAL && Read(cfg, r).Some? && !CredentialAllowed(cfg.policy, r.entity, Read(cfg, r).value.data)
  }

  /** The record may be stored. */
  ghost predicate Wanted(cfg: Config, r: ServerRecord) { r.kind in cfg.allowed && !Refused(cfg, r) }

  /** A credential that was changed on both sides. */
  ghost predicate ConflictingCredential(cfg: Config, st: State, r: ServerRecord) {
    Wanted(cfg, r) && r.kind == CREDENTIAL && !r.tombstone && !Stale(st, r) && IsConcurrent(st, r)
  }

  lemma StaleMeansCovered(st: State, r: ServerRecord)
    ensures Stale(st, r) <==> Leq(Normalized(r), st.Known(r.entity).vector)
  {
    hide Compare, Normalized;
    CompareExact(st.Known(r.entity).vector, Normalized(r));
  }

  /** A record that is old or unwanted changes nothing but the deferred records. */
  lemma IdleStep(cfg: Config, st: State, t: Tally, r: ServerRecord, copy: EntityId)
    requires !Wanted(cfg, r) || Stale(st, r)
    ensures Step(cfg, st, t, r, copy) == Outcome(
      if r.kind !in cfg.allowed || !Stale(st, r) then st.Defer(r) else st.Take(r), t, None)
  {
    hide Apply, CredentialAllowed, Compare, Normalized, Parse;
    assert st.Take(r).Known(r.entity) == st.Known(r.entity);
    assert st.Take(r).Defer(r) == st.Defer(r);
  }

  /** Any other record, if it can be read and applied, raises the clock of its entity, or, as a conflicting
      credential, creates its copy. */
  lemma NewsStep(cfg: Config, st: State, t: Tally, r: ServerRecord, copy: EntityId)
    requires Wanted(cfg, r) && !Stale(st, r) && Step(cfg, st, t, r, copy).err.None?
    ensures var s := Step(cfg, st, t, r, copy).state;
      && Writes(st.Take(r), s, Target(st, r, copy), Merged(st.Known(r.entity).vector, Normalized(r)))
      && (Target(st, r, copy) == if ConflictingCredential(cfg, st, r) then copy else r.entity)
      && (!ConflictingCredential(cfg, st, r) ==> Stale(s, r))
  {
    hide Apply, CredentialAllowed, Compare, Normalized, Merged, LocallyChanged, Writes, Parse, Stale, IsConcurrent;
    var taken, s := st.Take(r), Step(cfg, st, t, r, copy).state;
    TakeKeepsRest(st, r);
    match Open(cfg.key, r.body, r.Associated())
    case Some(payload) =>
      match Parse(payload, Normalized(r), r.deviceId)
      case Some(p) => ApplyWrites(taken, t, r, p, copy);
    MergeCovers(st.Known(r.entity).vector, Normalized(r));
    StaleMeansCovered(s, r);
    WritesClock(taken, s, Target(st, r, copy), Merged(st.Known(r.entity).vector, Normalized(r)));
  }

  lemma TakeKeepsRest(st: State, r: ServerRecord)
    ensures var taken := st.Take(r);
      && (forall id :: taken.Known(id) == st.Known(id)) && (Stale(taken, r) <==> Stale(st, r))
      && (IsConcurrent(taken, r) <==> IsConcurrent(st, r))
  {}

  lemma WritesClock(a: State, b: State, id: EntityId, vector: Vector)
    requires Writes(a, b, id, vector)
    ensures b.Known(id).vector == vector && forall other :: other != id ==> b.Known(other) == a.Known(other)
  {}

  // ----- other entities are left alone -----

  /** Nothing that is stored or known about the entity differs. */
  ghost predicate SameEntity(a: State, b: State, id: EntityId) {
    && a.Known(id) == b.Known(id) && (id in a.records <==> id in b.records)
    && (id in a.vault <==> id in b.vault) && (id in a.vault ==> a.vault[id] == b.vault[id])
    && LocalOf(a, id) == LocalOf(b, id)
  }

  lemma StepLeavesAlone(cfg: Config, st: State, t: Tally, r: ServerRecord, copy: EntityId, id: EntityId)
    requires r.entity != id && (r.kind == CREDENTIAL ==> copy != id)
    ensures SameEntity(st, Step(cfg, st, t, r, copy).state, id)
  {
    hide Step, Merged, Normalized, IsConcurrent, Stale;
    StepWrites(cfg, st, t, r, copy);
  }

  /** No record is about the entity, and no copy of a credential gets its identifier. */
  ghost predicate SparesEntity(batch: seq<ServerRecord>, copies: seq<EntityId>, id: EntityId)
    requires |copies| == |batch|
  {
    forall i :: 0 <= i < |batch| ==> batch[i].entity != id && (batch[i].kind == CREDENTIAL ==> copies[i] != id)
  }

  /** A batch without a record about the entity leaves it alone. */
  lemma {:induction false} PullLeavesAlone(cfg: Config, st: State, t: Tally, batch: seq<ServerRecord>,
                                           copies: seq<EntityId>, id: EntityId)
    requires |copies| == |batch| && SparesEntity(batch, copies, id)
    ensures SameEntity(st, Pull(cfg, st, t, batch, copies).state, id)
    decreases |batch|
  {
    hide Step, SameEntity;
    if batch != [] {
      var first := Step(cfg, st, t, batch[0], copies[0]);
      StepLeavesAlone(cfg, st, t, batch[0], copies[0], id);
      if first.err.None? {
        PullLeavesAlone(cfg, first.state, first.tally, batch[1..], copies[1..], id);
        SameEntityTransitive(st, first.state, Pull(cfg, st, t, batch, copies).state, id);
      }
    } else {
      SameEntityReflexive(st, id);
    }
  }

  lemma SameEntityReflexive(st: State, id: EntityId)
    ensures SameEntity(st, st, id)
  {}

  lemma SameEntityTransitive(a: State, b: State, c: State, id: EntityId)
    requires SameEntity(a, b, id) && SameEntity(b, c, id)
    ensures SameEntity(a, c, id)
  {}

  /** A batch is pulled as its first part and then, unless that failed, the rest. */
  lemma {:induction false} PullAppend(cfg: Config, st: State, t: Tally, a: seq<ServerRecord>, b: seq<ServerRecord>,
                                      c: seq<EntityId>, d: seq<EntityId>)
    requires |c| == |a| && |d| == |b|
    ensures Pull(cfg, st, t, a + b, c + d) ==
      var o := Pull(cfg, st, t, a, c); if o.err.Some? then o else Pull(cfg, o.state, o.tally, b, d)
    decreases |a|
  {
    hide Step;
    if a == [] {
      assert a + b == b && c + d == d;
    } else {
      assert (a + b)[1..] == a[1..] + b && (c + d)[1..] == c[1..] + d;
      var first := Step(cfg, st, t, a[0], c[0]);
      PullAppend(cfg, first.state, first.tally, a[1..], b, c[1..], d);
    }
  }

  lemma PullOne(cfg: Config, st: State, t: Tally, r: ServerRecord, copy: EntityId)
    ensures Pull(cfg, st, t, [r], [copy]) == Step(cfg, st, t, r, copy)
  {
    hide Step;
    var first := Step(cfg, st, t, r, copy);
    assert [r][1..] == [] && [copy][1..] == [];
    assert Pull(cfg, first.state, first.tally, [], []) == Outcome(first.state, first.tally, None);
  }

  /** A batch with one record about the entity does to it what this record does. */
  lemma PullAround(cfg: Config, st: State, t: Tally, batch: seq<ServerRecord>, copies: seq<EntityId>, i: nat)
    returns (met: State, u: Tally)
    requires |copies| == |batch| && i < |batch| && Pull(cfg, st, t, batch, copies).err.None?
    requires SparesEntity(batch[..i], copies[..i], batch[i].entity)
    requires SparesEntity(batch[i + 1..], copies[i + 1..], batch[i].entity)
    ensures SameEntity(st, met, batch[i].entity)
    ensures var o := Step(cfg, met, u, batch[i], copies[i]);
      o.err.None? && SameEntity(o.state, Pull(cfg, st, t, batch, copies).state, batch[i].entity)
  {
    hide Step, Pull, SparesEntity, SameEntity;
    var a, b, c, d := batch[..i], batch[i + 1..], copies[..i], copies[i + 1..];
    assert batch == a + ([batch[i]] + b) && copies == c + ([copies[i]] + d);
    PullAppend(cfg, st, t, a, [batch[i]] + b, c, [copies[i]] + d);
    var before := Pull(cfg, st, t, a, c);
    PullAppend(cfg, before.state, before.tally, [batch[i]], b, [copies[i]], d);
    PullOne(cfg, before.state, before.tally, batch[i], copies[i]);
    met, u := before.state, before.tally;
    PullLeavesAlone(cfg, st, t, a, c, batch[i].entity);
    var o := Step(cfg, met, u, batch[i], copies[i]);
    PullLeavesAlone(cfg, o.state, o.tally, b, d, batch[i].entity);
  }

  // ----- the state in which a record is met -----

  /** The state in which a pull meets the record at position `i` of its batch. */
  ghost function Met(cfg: Config, st: State, t: Tally, batch: seq<ServerRecord>, copies: seq<EntityId>, i: nat): State
    requires |copies| == |batch| && i < |batch|
    decreases i
  {
    if i == 0 then st
    else
      var first := Step(cfg, st, t, batch[0], copies[0]);
      Met(cfg, first.state, first.tally, batch[1..], copies[1..], i - 1)
  }

  // ----- a concurrent edit survives a deletion -----

  /** The next push of the device: the entity's clock, incremented. */
  ghost function NextVector(rs: RecordState, device: DeviceId): Vector { Incremented(rs.vector, device, rs.version) }

  /** A deletion that is concurrent with a local edit leaves the local text alone, marks it for pushing,
      and the next push is later than the deletion. */
  lemma EditSurvivesDeletion(cfg: Config, st: State, t: Tally, r: ServerRecord, copy: EntityId, device: DeviceId)
    requires Wanted(cfg, r) && Read(cfg, r).Some? && r.tombstone && !Stale(st, r)
    requires r.entity in st.local && IsConcurrent(st, r)
    ensures var o := Step(cfg, st, t, r, copy); var rs := o.state.Known(r.entity);
      && o.err.None? && o.state.vault == st.vault && o.state.local == st.local
      && rs.hash.None? && !rs.tombstone && rs.fields == st.Known(r.entity).fields
      && o.tally == Tally(t.applied + 1, t.conflicts + 1)
      && (Get(rs.vector, device) < MAX_INT64 ==>
            Less(Normalized(r), NextVector(rs, device)) && Less(st.Known(r.entity).vector, NextVector(rs, device)))
  {
    hide Normalized, Compare, CredentialAllowed, Merged, Parse;
    var o := Step(cfg, st, t, r, copy);
    var taken := st.Take(r);
    assert taken.Known(r.entity) == st.Known(r.entity) && LocalOf(taken, r.entity) == LocalOf(st, r.entity);
    var rs := o.state.Known(r.entity);
    MergeCovers(st.Known(r.entity).vector, Normalized(r));
    if Get(rs.vector, device) < MAX_INT64 {
      SeededIsSelf(rs.vector, device, rs.version);
      IncrementDominates(rs.vector, device, rs.version);
      LeqThenLess(Normalized(r), rs.vector, NextVector(rs, device));
      LeqThenLess(st.Known(r.entity).vector, rs.vector, NextVector(rs, device));
    }
  }

  lemma LeqThenLess(a: Vector, b: Vector, c: Vector)
    requires Leq(a, b) && Less(b, c)
    ensures Less(a, c)
  {
    LeqTransitive(a, b, c);
    if Leq(c, a) {
      LeqTransitive(c, a, b);
    }
  }

  lemma SeededIsSelf(v: Vector, device: DeviceId, legacyVersion: int64)
    requires Positive(v) && (v == map[] ==> legacyVersion <= 0)
    ensures Seeded(v, device, legacyVersion) == v
  {
    var c := Cloned(v);
    assert c == v;
  }
}
