/** The envelope in which a changed record is pushed, and the bound on its field clocks. */
module SyncEnvelope {
  import opened Options
  import opened VersionVectors
  import opened FieldMerge
  import opened FieldMergeLaws
  import opened SyncSpec
  import opened SyncSafety

  // ----- making an envelope -----

  /** A field that did not change keeps its clock; a changed or vanished one gets the record's. */
  function EnvelopeField(members: Object, previous: Fields, vector: Vector, writer: DeviceId, name: string): FieldState
    requires name in members || name in previous
  {
    if name in members then
      if name in previous && previous[name].hash == Some(Sha256(members[name])) then previous[name]
      else FieldState(Cloned(vector), writer, Some(Sha256(members[name])))
    else FieldState(Cloned(vector), writer, None)
  }

  function EnvelopeFields(members: Object, previous: Fields, vector: Vector, writer: DeviceId): Fields {
    map name | name in members.Keys + previous.Keys :: EnvelopeField(members, previous, vector, writer, name)
  }

  method StampField(members: Object, previous: Fields, vector: Vector, writer: DeviceId, name: string)
    returns (state: FieldState)
    requires name in members
    ensures state == EnvelopeField(members, previous, vector, writer, name)
  {
    var hash := Sha256(members[name]);
    if name in previous && previous[name].hash == Some(hash) {
      return previous[name];
    }
    var clock := CloneVector(vector);
    state := FieldState(clock, writer, Some(hash));
  }

  method StampDeleted(members: Object, previous: Fields, vector: Vector, writer: DeviceId) returns (fields: Fields)
    ensures fields.Keys == previous.Keys - members.Keys
    ensures forall name :: name in fields ==> fields[name] == EnvelopeField(members, previous, vector, writer, name)
  {
    fields := map[];
    var names := previous.Keys;
    while names != {}
      invariant names <= previous.Keys
      invariant fields.Keys == (previous.Keys - names) - members.Keys
      invariant forall name :: name in fields ==> fields[name] == FieldState(Cloned(vector), writer, None)
      decreases |names|
    {
      var name :| name in names;
      names := names - {name};
      if name !in members {
        var clock := CloneVector(vector);
        fields := fields[name := FieldState(clock, writer, None)];
      }
    }
  }

  method StampMembers(members: Object, previous: Fields, vector: Vector, writer: DeviceId) returns (fields: Fields)
    ensures fields.Keys == members.Keys
    ensures forall name :: name in fields ==> fields[name] == EnvelopeField(members, previous, vector, writer, name)
  {
    hide EnvelopeField;
    fields := map[];
    var names := members.Keys;
    while names != {}
      invariant names <= members.Keys
      invariant fields.Keys == members.Keys - names
      invariant forall name :: name in fields ==> fields[name] == EnvelopeField(members, previous, vector, writer, name)
      decreases |names|
    {
      var name :| name in names;
      names := names - {name};
      var state := StampField(members, previous, vector, writer, name);
      fields := fields[name := state];
    }
  }

  method MakeSyncEnvelope(data: Json, previous: Fields, vector: Vector, writer: DeviceId)
    returns (payload: Payload, fields: Fields, err: Option<SyncError>)
    ensures err == if data.Members? then None else Some(NotJsonObject)
    ensures err.None? ==>
      fields == EnvelopeFields(data.members, previous, vector, writer) && payload == Envelope(data, fields)
  {
    hide EnvelopeField;
    if data.NotAnObject? {
      return Malformed, map[], Some(NotJsonObject);
    }
    fields := StampMembers(data.members, previous, vector, writer);
    var deleted := StampDeleted(data.members, previous, vector, writer);
    fields := fields + deleted;
    payload, err := Envelope(data, fields), None;
  }

  // ----- field clocks stay within the record's clock -----

  ghost predicate BoundedBy(fields: Fields, vector: Vector) {
    forall name :: name in fields ==> Leq(fields[name].vector, vector)
  }

  ghost predicate AllBounded(st: State) { forall id :: BoundedBy(st.Known(id).fields, st.Known(id).vector) }

  lemma BoundedHigher(fields: Fields, a: Vector, b: Vector)
    requires BoundedBy(fields, a) && Leq(a, b)
    ensures BoundedBy(fields, b)
  {
    forall name | name in fields ensures Leq(fields[name].vector, b) {
      LeqTransitive(fields[name].vector, a, b);
    }
  }

  lemma ClonedIsBelow(v: Vector, bound: Vector)
    requires Leq(v, bound) && Positive(bound)
    ensures Leq(Cloned(v), bound)
  {
    forall id ensures Get(Cloned(v), id) <= Get(bound, id) {
      assert Get(v, id) <= Get(bound, id);
    }
  }

  lemma EnvelopeKeepsBound(members: Object, previous: Fields, past: Vector, vector: Vector, writer: DeviceId)
    requires BoundedBy(previous, past) && Leq(past, vector) && Positive(vector)
    ensures BoundedBy(EnvelopeFields(members, previous, vector, writer), vector)
  {
    BoundedHigher(previous, past, vector);
    ClonedIsBelow(vector, vector);
  }

  lemma MergeKeepsBound(a: Document, b: Document, bound: Vector)
    requires BoundedBy(a.fields, bound) && BoundedBy(b.fields, bound)
    ensures BoundedBy(Merge(a, b).fields, bound)
  {
    hide Beats;
    var m := Merge(a, b);
    forall name | name in m.fields ensures Leq(m.fields[name].vector, bound) {
      assert CellOf(m, name) == MergeCell(CellOf(a, name), CellOf(b, name));
    }
  }

  /** The clocks inside the record are within the record's own clock. */
  ghost predicate Honest(r: ServerRecord) {
    r.body.Sealed? && r.body.payload.Envelope? ==> BoundedBy(r.body.payload.fields, Normalized(r))
  }

  lemma ParsedIsBounded(cfg: Config, r: ServerRecord, p: Parsed)
    requires Honest(r)
    requires Open(cfg.key, r.body, r.Associated()).Some?
    requires Parse(Open(cfg.key, r.body, r.Associated()).value, Normalized(r), r.deviceId) == Some(p)
    ensures BoundedBy(p.fields, Normalized(r))
  {
    hide Normalized;
    ClonedIsBelow(Normalized(r), Normalized(r));
  }

  lemma RememberBounded(before: State, after: State, id: EntityId)
    requires AllBounded(before) && id in after.records && after.records == before.records[id := after.records[id]]
    requires BoundedBy(after.records[id].fields, after.records[id].vector)
    ensures AllBounded(after)
  {
    hide BoundedBy;
    forall other ensures BoundedBy(after.Known(other).fields, after.Known(other).vector) {
      assert other != id ==> after.Known(other) == before.Known(other);
    }
  }

  lemma ApplyKeepsBounded(st: State, t: Tally, r: ServerRecord, p: Parsed, copy: EntityId)
    requires AllBounded(st) && BoundedBy(p.fields, Normalized(r))
    ensures AllBounded(Apply(st, t, r, p, copy).state)
  {
    hide Merge, ConflictCopy, IsConcurrent, Merged, Normalized, MaxCounter, BoundedBy, AllBounded;
    assert BoundedBy(st.Known(r.entity).fields, st.Known(r.entity).vector) by {
      BoundsOf(st, r.entity);
    }
    var known, v := st.Known(r.entity), Merged(st.Known(r.entity).vector, Normalized(r));
    MergeCovers(known.vector, Normalized(r));
    BoundedHigher(p.fields, Normalized(r), v);
    BoundedHigher(known.fields, known.vector, v);
    if r.entity in st.local && st.local[r.entity].Members? && p.data.Members? {
      MergeKeepsBound(Document(st.local[r.entity].members, known.fields), Document(p.data.members, p.fields), v);
    }
    ApplyWrites(st, t, r, p, copy);
    var o, id := Apply(st, t, r, p, copy), Target(st, r, copy);
    if o.err.None? {
      RememberBounded(st, o.state, id);
    }
  }

  lemma BoundsOf(st: State, id: EntityId)
    requires AllBounded(st)
    ensures BoundedBy(st.Known(id).fields, st.Known(id).vector)
  {}

  lemma StepKeepsBounded(cfg: Config, st: State, t: Tally, r: ServerRecord, copy: EntityId)
    requires AllBounded(st) && Honest(r)
    ensures AllBounded(Step(cfg, st, t, r, copy).state)
  {
    hide Apply, CredentialAllowed, Compare, Normalized, BoundedBy, Parse;
    var taken := st.Take(r);
    forall id ensures taken.Known(id) == st.Known(id) && st.Defer(r).Known(id) == st.Known(id) {}
    forall id ensures taken.Defer(r).Known(id) == st.Known(id) {}
    match Open(cfg.key, r.body, r.Associated())
    case None =>
    case Some(payload) =>
      match Parse(payload, Normalized(r), r.deviceId)
      case None =>
      case Some(p) =>
        ParsedIsBounded(cfg, r, p);
        ApplyKeepsBounded(taken, t, r, p, copy);
  }

  /** Pulling keeps every field clock within its record's clock. */
  lemma {:induction false} PullKeepsBounded(cfg: Config, st: State, t: Tally, batch: seq<ServerRecord>,
                                            copies: seq<EntityId>)
    requires |copies| == |batch| && AllBounded(st) && forall r :: r in batch ==> Honest(r)
    ensures AllBounded(Pull(cfg, st, t, batch, copies).state)
    decreases |batch|
  {
    hide Step, AllBounded, Honest;
    if batch != [] {
      var first := Step(cfg, st, t, batch[0], copies[0]);
      assert batch[0] in batch;
      StepKeepsBounded(cfg, st, t, batch[0], copies[0]);
      PullKeepsBounded(cfg, first.state, first.tally, batch[1..], copies[1..]);
    }
  }

  // ----- what an envelope says about the edit -----

  /** A pushed document has a clock for every field, is a later edit of the one pushed before, and gives
      a new clock to exactly the fields that differ, and to those that were already deleted. */
  lemma EnvelopeRecordsEdit(before: Document, members: Object, past: Vector, vector: Vector, writer: DeviceId)
    requires Live(before) && BoundedBy(before.fields, past) && Less(past, vector) && Positive(vector)
    ensures var after := Document(members, EnvelopeFields(members, before.fields, vector, writer));
      && Live(after)
      && forall name ::
        && EditOf(CellOf(before, name), CellOf(after, name))
        && (CellOf(before, name) == CellOf(after, name) <==>
              CellOf(before, name).value == CellOf(after, name).value && (name in before.fields ==> name in members))
  {
    var after := Document(members, EnvelopeFields(members, before.fields, vector, writer));
    forall name
      ensures LiveCell(CellOf(after, name)) && EditOf(CellOf(before, name), CellOf(after, name))
      ensures CellOf(before, name) == CellOf(after, name) <==>
        CellOf(before, name).value == CellOf(after, name).value && (name in before.fields ==> name in members)
    {
      EnvelopeCell(before, members, past, vector, writer, name);
    }
  }

  lemma EnvelopeCell(before: Document, members: Object, past: Vector, vector: Vector, writer: DeviceId, name: string)
    requires Live(before) && BoundedBy(before.fields, past) && Less(past, vector) && Positive(vector)
    ensures var after := Document(members, EnvelopeFields(members, before.fields, vector, writer));
      var a, b := CellOf(before, name), CellOf(after, name);
      && LiveCell(b) && EditOf(a, b)
      && (a == b <==> a.value == b.value && (name in before.fields ==> name in members))
  {
    hide Leq;
    assert LiveCell(CellOf(before, name));
    assert Cloned(vector) == vector;
    if name in before.fields {
      LeqThenLess(before.fields[name].vector, past, vector);
      assert before.fields[name].vector != vector by {
        LessIsIrreflexive(vector);
      }
    }
  }

  lemma LessIsIrreflexive(v: Vector)
    ensures !Less(v, v)
  {}

  /** Two devices edit the same base. When their two envelopes are merged, a field that one of them left alone
      ends, in either order, as the other one wrote it: changed, added, deleted or untouched. (What a pull merges
      are not always the two envelopes: see `SyncEdits`.) */
  lemma IndependentEditsMeet(base: Document, past: Vector, mine: Object, v: Vector, me: DeviceId,
                             theirs: Object, w: Vector, them: DeviceId, name: string)
    requires Live(base) && BoundedBy(base.fields, past)
    requires Less(past, v) && Positive(v) && Less(past, w) && Positive(w)
    requires CellOf(base, name).value == (if name in theirs then Some(theirs[name]) else None)
    requires name in base.fields ==> name in theirs
    ensures var a := Document(mine, EnvelopeFields(mine, base.fields, v, me));
      var b := Document(theirs, EnvelopeFields(theirs, base.fields, w, them));
      && CellOf(Merge(a, b), name) == CellOf(a, name) && CellOf(Merge(b, a), name) == CellOf(a, name)
      && CellOf(a, name).value == (if name in mine then Some(mine[name]) else None)
  {
    hide Live, LiveCell, EditOf, EnvelopeFields, BoundedBy, Less, Positive, MergeCell;
    var a := Document(mine, EnvelopeFields(mine, base.fields, v, me));
    var b := Document(theirs, EnvelopeFields(theirs, base.fields, w, them));
    EnvelopeRecordsEdit(base, mine, past, v, me);
    EnvelopeRecordsEdit(base, theirs, past, w, them);
    KeepsIndependentEdits(base, a, b, name);
    KeepsIndependentEdits(base, b, a, name);
  }
}
