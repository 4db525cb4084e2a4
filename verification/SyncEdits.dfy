/** Local edits of single fields against pulled ones: which of them a merge keeps, with the clocks that it is
    given. A device that pulls before its own push has come back merges with the clocks from before its edit. */
module SyncEdits {
  import opened Options
  import opened VersionVectors
  import opened FieldMerge
  import opened SyncSpec
  import opened SyncSafety
  import opened Sync
  import opened SyncRuns

  // ----- one field in the vault -----

  function Member(members: Object, name: string): Option<Raw> {
    if name in members then Some(members[name]) else None
  }

  /** The stored object has this value, or no value, for the field. */
  predicate Holds(st: State, id: EntityId, name: string, value: Option<Raw>) {
    id in st.vault && st.vault[id].data.Members? && Member(st.vault[id].data.members, name) == value
  }

  /** The pulled record, an object, is to be merged field by field with a local object. */
  ghost predicate Merges(cfg: Config, st: State, r: ServerRecord) {
    && r.kind != CREDENTIAL && r.kind in cfg.allowed && !r.tombstone && !Stale(st, r) && IsConcurrent(st, r)
    && Read(cfg, r).Some? && Read(cfg, r).value.data.Members?
    && r.entity in st.local && st.local[r.entity].Members?
  }

  function LocalMembers(st: State, id: EntityId): Object {
    if id in st.local && st.local[id].Members? then st.local[id].members else map[]
  }

  function RemoteMembers(cfg: Config, r: ServerRecord): Object {
    if Read(cfg, r).Some? && Read(cfg, r).value.data.Members? then Read(cfg, r).value.data.members else map[]
  }

  function RemoteFields(cfg: Config, r: ServerRecord): Fields {
    if Read(cfg, r).Some? then Read(cfg, r).value.fields else map[]
  }

  /** The remote write of a field is later than the last one that both sides know of. */
  ghost predicate Overruled(cfg: Config, known: Fields, r: ServerRecord, name: string) {
    name in known && name in RemoteFields(cfg, r) && Beats(RemoteFields(cfg, r)[name], known[name])
  }

  lemma MergeStep(cfg: Config, st: State, t: Tally, r: ServerRecord, copy: EntityId)
    requires Merges(cfg, st, r)
    ensures var o := Step(cfg, st, t, r, copy);
      var m := Merge(Document(LocalMembers(st, r.entity), st.Known(r.entity).fields),
                     Document(RemoteMembers(cfg, r), RemoteFields(cfg, r)));
      && o.err.None?
      && o.state.vault == st.vault[r.entity := Row(r.kind, Members(m.members))]
      && o.state.local == st.local[r.entity := Members(m.members)]
      && o.state.Known(r.entity) ==
           Synced(Merged(st.Known(r.entity).vector, Normalized(r)), Members(m.members), m.fields, false)
  {
    hide CredentialAllowed, Compare, Merged, Normalized, LocallyChanged, MaxCounter, Parse, Merge;
    TakeKeepsRest(st, r);
    assert st.Take(r).local == st.local && st.Take(r).vault == st.vault;
  }

  /** What the merge leaves in the vault for one field. */
  lemma MergedMember(cfg: Config, st: State, t: Tally, r: ServerRecord, copy: EntityId, name: string, value: Option<Raw>)
    requires Merges(cfg, st, r)
    ensures var local := Document(LocalMembers(st, r.entity), st.Known(r.entity).fields);
      var remote := Document(RemoteMembers(cfg, r), RemoteFields(cfg, r));
      Holds(Step(cfg, st, t, r, copy).state, r.entity, name, value) <==>
        MergeCell(CellOf(local, name), CellOf(remote, name)).value == value
  {
    hide Step, RemoteMembers, RemoteFields, LocalMembers, MergeCell, Merges, Merged, Normalized, MaxCounter;
    MergeStep(cfg, st, t, r, copy);
    var local := Document(LocalMembers(st, r.entity), st.Known(r.entity).fields);
    var remote := Document(RemoteMembers(cfg, r), RemoteFields(cfg, r));
    assert CellOf(Merge(local, remote), name) == MergeCell(CellOf(local, name), CellOf(remote, name));
  }

  /** A field that was changed or added here, and is otherwise or absent there, is kept exactly if a live write
      of it was known before and the remote write is not later than that one. So an added field is dropped. */
  lemma ChangeSurvivesStepIff(cfg: Config, st: State, t: Tally, r: ServerRecord, copy: EntityId, name: string)
    requires Merges(cfg, st, r) && name in LocalMembers(st, r.entity)
    requires Member(RemoteMembers(cfg, r), name) != Some(LocalMembers(st, r.entity)[name])
    ensures var known := st.Known(r.entity).fields;
      Holds(Step(cfg, st, t, r, copy).state, r.entity, name, Some(LocalMembers(st, r.entity)[name])) <==>
        name in known && known[name].hash.Some? && !Overruled(cfg, known, r, name)
  {
    hide Step, Beats, RemoteMembers, RemoteFields, LocalMembers, Merges, Holds;
    MergedMember(cfg, st, t, r, copy, name, Some(LocalMembers(st, r.entity)[name]));
  }

  /** A field that was deleted here, and is present there, stays away exactly if a write of it was known before
      and the remote write is not later than that one, or the remote side has no live write of it. */
  lemma DeletionSurvivesStepIff(cfg: Config, st: State, t: Tally, r: ServerRecord, copy: EntityId, name: string)
    requires Merges(cfg, st, r) && name !in LocalMembers(st, r.entity) && name in RemoteMembers(cfg, r)
    ensures var known, theirs := st.Known(r.entity).fields, RemoteFields(cfg, r);
      Holds(Step(cfg, st, t, r, copy).state, r.entity, name, None) <==>
        (name in known && !Overruled(cfg, known, r, name)) || name !in theirs || theirs[name].hash.None?
  {
    hide Step, Beats, RemoteMembers, RemoteFields, LocalMembers, Merges, Holds;
    MergedMember(cfg, st, t, r, copy, name, None);
  }

  // ----- through a whole pull -----

  /** Record `i` is the only one of the batch about its entity. */
  ghost predicate OnlyOne(batch: seq<ServerRecord>, copies: seq<EntityId>, i: nat)
    requires |copies| == |batch| && i < |batch|
  {
    && SparesEntity(batch[..i], copies[..i], batch[i].entity)
    && SparesEntity(batch[i + 1..], copies[i + 1..], batch[i].entity)
  }

  lemma MergesSame(cfg: Config, a: State, b: State, r: ServerRecord)
    requires SameEntity(a, b, r.entity)
    ensures Merges(cfg, a, r) <==> Merges(cfg, b, r)
    ensures Merges(cfg, a, r) ==> LocalMembers(a, r.entity) == LocalMembers(b, r.entity)
  {
    hide Read, Compare, Normalized, LocallyChanged;
  }

  lemma HoldsSame(a: State, b: State, id: EntityId, name: string, value: Option<Raw>)
    requires SameEntity(a, b, id)
    ensures Holds(a, id, name, value) <==> Holds(b, id, name, value)
  {}

  lemma ChangeSurvivesPullIff(cfg: Config, st: State, t: Tally, batch: seq<ServerRecord>, copies: seq<EntityId>,
                              i: nat, name: string)
    requires |copies| == |batch| && i < |batch| && OnlyOne(batch, copies, i)
    requires Pull(cfg, st, t, batch, copies).err.None?
    requires Merges(cfg, st, batch[i]) && name in LocalMembers(st, batch[i].entity)
    requires Member(RemoteMembers(cfg, batch[i]), name) != Some(LocalMembers(st, batch[i].entity)[name])
    ensures var s, r, known := Pull(cfg, st, t, batch, copies).state, batch[i], st.Known(batch[i].entity).fields;
      Holds(s, r.entity, name, Some(LocalMembers(st, r.entity)[name])) <==>
        name in known && known[name].hash.Some? && !Overruled(cfg, known, r, name)
  {
    hide Pull, Step, Merges, Holds, SparesEntity;
    var r := batch[i];
    var met, u := PullAround(cfg, st, t, batch, copies, i);
    MergesSame(cfg, st, met, r);
    ChangeSurvivesStepIff(cfg, met, u, r, copies[i], name);
    HoldsSame(Step(cfg, met, u, r, copies[i]).state, Pull(cfg, st, t, batch, copies).state, r.entity, name,
              Some(LocalMembers(st, r.entity)[name]));
  }

  lemma DeletionSurvivesPullIff(cfg: Config, st: State, t: Tally, batch: seq<ServerRecord>, copies: seq<EntityId>,
                                i: nat, name: string)
    requires |copies| == |batch| && i < |batch| && OnlyOne(batch, copies, i)
    requires Pull(cfg, st, t, batch, copies).err.None?
    requires Merges(cfg, st, batch[i])
    requires name !in LocalMembers(st, batch[i].entity) && name in RemoteMembers(cfg, batch[i])
    ensures var s, r, known := Pull(cfg, st, t, batch, copies).state, batch[i], st.Known(batch[i].entity).fields;
      var theirs := RemoteFields(cfg, r);
      Holds(s, r.entity, name, None) <==>
        (name in known && !Overruled(cfg, known, r, name)) || name !in theirs || theirs[name].hash.None?
  {
    hide Pull, Step, Merges, Holds, SparesEntity;
    var r := batch[i];
    var met, u := PullAround(cfg, st, t, batch, copies, i);
    MergesSame(cfg, st, met, r);
    DeletionSurvivesStepIff(cfg, met, u, r, copies[i], name);
    HoldsSame(Step(cfg, met, u, r, copies[i]).state, Pull(cfg, st, t, batch, copies).state, r.entity, name, None);
  }

  // ----- through a whole synchronization -----

  /** Where the two sides differ in a field, the local side survives a synchronization exactly under these
      conditions, whatever was pushed before the pull. */
  lemma EditSurvivesSyncIff(cfg: Config, st: State, journal: seq<Deletion>, device: DeviceId, list: seq<ServerRecord>,
                            ids: seq<EntityId>, i: nat, name: string)
    requires |ids| == |list| && i < |list| && OnlyOne(list, ids, i)
    requires var start := st.(local := Exported(cfg, st.vault));
      && Pull(cfg, start, Tally(0, 0), list, ids).err.None? && Merges(cfg, start, list[i])
    requires Member(LocalMembers(st.(local := Exported(cfg, st.vault)), list[i].entity), name) !=
      Member(RemoteMembers(cfg, list[i]), name)
    ensures var r := list[i];
      var mine := Member(LocalMembers(st.(local := Exported(cfg, st.vault)), r.entity), name);
      var known, theirs := st.Known(r.entity).fields, RemoteFields(cfg, r);
      && Holds(st, r.entity, name, mine)
      && (Holds(AfterSync(cfg, st, journal, device, list, ids), r.entity, name, mine) <==>
            if mine.Some? then name in known && known[name].hash.Some? && !Overruled(cfg, known, r, name)
            else (name in known && !Overruled(cfg, known, r, name)) || name !in theirs || theirs[name].hash.None?)
  {
    hide Pull, OnlyOne, Merges, Overruled, RemoteFields, RemoteMembers, PendingStates;
    var start := st.(local := Exported(cfg, st.vault));
    assert start.Known(list[i].entity) == st.Known(list[i].entity);
    MergesLocally(cfg, start, list[i]);
    if name in LocalMembers(start, list[i].entity) {
      ChangeSurvivesPullIff(cfg, start, Tally(0, 0), list, ids, i, name);
    } else {
      DeletionSurvivesPullIff(cfg, start, Tally(0, 0), list, ids, i, name);
    }
  }

  lemma MergesLocally(cfg: Config, st: State, r: ServerRecord)
    ensures Merges(cfg, st, r) ==> r.entity in st.local && st.local[r.entity].Members?
  {}

  /** A field of a pushed row that the pull dropped from the vault: the next push reports it as deleted. */
  lemma DroppedIsPushedAsDeleted(cfg: Config, st: State, journal: seq<Deletion>, device: DeviceId,
                                 list: seq<ServerRecord>, ids: seq<EntityId>, id: EntityId, name: string)
    requires |ids| == |list|
    requires Pushable(cfg, st, id) && st.vault[id].data.Members? && name in st.vault[id].data.members
    requires forall d :: d in journal ==> d.entity != id
    requires var after := AfterSync(cfg, st, journal, device, list, ids);
      Pushable(cfg, after, id) && Holds(after, id, name, None)
    ensures var next := RecordStates(cfg, AfterSync(cfg, st, journal, device, list, ids), device);
      id in next && name in next[id].fields && next[id].fields[name].hash.None?
  {
    hide AfterSync, Incremented, CredentialAllowed;
    PushedIsKnown(cfg, st, journal, device, list, ids, id);
  }

  // ----- an added field that is lost -----

  const LAPTOP := Config("key", {"host"}, Policy(map[], true))

  /** Synchronized as `{"a":1}` by device X, which then added `n`. */
  const EDITED := State(
    map["e" := RecordState(1, map["X" := 1], Some(Sha256Record(Members(map["a" := "1"]))),
                           map["a" := FieldState(map["X" := 1], "X", Some(Sha256("1")))], false)],
    map[], map["e" := Row("host", Members(map["a" := "1", "n" := "9"]))], map[])

  /** Device Y meanwhile changed `a`. */
  const CHANGED := ServerRecord("r", "host", "e", "Y", 1, map["X" := 1, "Y" := 1], false,
    Sealed("key", Aad("host", "e", 1, map["X" := 1, "Y" := 1]),
           Envelope(Members(map["a" := "2"]), map["a" := FieldState(map["X" := 1, "Y" := 1], "Y", Some(Sha256("2")))])))

  /** Two edits of different fields, and a server that does not hand the own push out again: the synchronization
      drops the added one, which no one else touched, and the next push deletes it everywhere. */
  lemma AddedFieldIsDropped()
    ensures var after := AfterSync(LAPTOP, EDITED, [], "X", [CHANGED], ["c"]);
      && Holds(EDITED, "e", "n", Some("9")) && Holds(after, "e", "n", None)
      && var next := RecordStates(LAPTOP, after, "X");
         "e" in next && "n" in next["e"].fields && next["e"].fields["n"].hash.None?
  {
    hide AfterSync, RecordStates;
    ChangedMerges();
    MergedAlone(LAPTOP, EDITED, [], "X", CHANGED, "c", "n", None);
    EditedIsPushable();
    PushedIsKnown(LAPTOP, EDITED, [], "X", [CHANGED], ["c"], "e");
    DroppedIsPushedAsDeleted(LAPTOP, EDITED, [], "X", [CHANGED], ["c"], "e", "n");
  }

  lemma EditedIsPushable()
    ensures Pushable(LAPTOP, EDITED, "e")
  {
    assert "n" in map["a" := "1", "n" := "9"] && "n" !in map["a" := "1"];
  }

  /** A synchronization that pulls a single record, which is merged. */
  lemma MergedAlone(cfg: Config, st: State, journal: seq<Deletion>, device: DeviceId, r: ServerRecord, copy: EntityId,
                    name: string, value: Option<Raw>)
    requires Merges(cfg, st.(local := Exported(cfg, st.vault)), r)
    ensures var start, after := st.(local := Exported(cfg, st.vault)), AfterSync(cfg, st, journal, device, [r], [copy]);
      && r.entity in after.vault && after.vault[r.entity].kind == r.kind
      && (Holds(after, r.entity, name, value) <==>
            MergeCell(CellOf(Document(LocalMembers(start, r.entity), st.Known(r.entity).fields), name),
                      CellOf(Document(RemoteMembers(cfg, r), RemoteFields(cfg, r)), name)).value == value)
  {
    hide Step, Merges, RemoteMembers, RemoteFields, LocalMembers, PendingStates, MergeCell, Pull, Merged,
         Normalized, MaxCounter;
    var start, t := st.(local := Exported(cfg, st.vault)), Tally(0, 0);
    assert start.Known(r.entity) == st.Known(r.entity);
    PullOne(cfg, start, t, r, copy);
    MergeStep(cfg, start, t, r, copy);
    MergedMember(cfg, start, t, r, copy, name, value);
  }

  lemma ChangedMerges()
    ensures var start := EDITED.(local := Exported(LAPTOP, EDITED.vault));
      && Merges(LAPTOP, start, CHANGED) && OnlyOne([CHANGED], ["c"], 0)
      && LocalMembers(start, "e") == map["a" := "1", "n" := "9"]
      && RemoteMembers(LAPTOP, CHANGED) == map["a" := "2"]
  {
    var mine: Vector := map["X" := 1];
    var start := EDITED.(local := Exported(LAPTOP, EDITED.vault));
    assert Normalized(CHANGED) == map["X" := 1, "Y" := 1];
    assert Get(mine, "Y") < Get(Normalized(CHANGED), "Y");
    StaleMeansCovered(start, CHANGED);
    assert "n" in map["a" := "1", "n" := "9"] && "n" !in map["a" := "1"];
  }

  /** Device Y meanwhile deleted the row. */
  const DELETED := ServerRecord("r", "host", "e", "Y", 1, map["X" := 1, "Y" := 1], true,
    Sealed("key", Aad("host", "e", 1, map["X" := 1, "Y" := 1]), Bare(map[])))

  /** The edit survives the deletion here, but it is not pushed again, and what was pushed is concurrent with the
      deletion instead of later. */
  lemma ResurrectionIsLost()
    ensures var start := EDITED.(local := Exported(LAPTOP, EDITED.vault));
      var pulled := Pull(LAPTOP, start, Tally(0, 0), [DELETED], ["c"]).state;
      var after := AfterSync(LAPTOP, EDITED, [], "X", [DELETED], ["c"]);
      && Holds(after, "e", "n", Some("9")) && Pushable(LAPTOP, pulled, "e") && !Pushable(LAPTOP, after, "e")
      && Compare(after.Known("e").vector, Normalized(DELETED)) == Concurrent
  {
    hide AfterSync, Pull, Step;
    var start := EDITED.(local := Exported(LAPTOP, EDITED.vault));
    EditedIsPushable();
    DeletedIsConcurrent();
    PullOne(LAPTOP, start, Tally(0, 0), DELETED, "c");
    EditSurvivesDeletion(LAPTOP, start, Tally(0, 0), DELETED, "c", "X");
    ResurrectionIsForgotten(LAPTOP, EDITED, [], "X", [DELETED], ["c"], 0);
  }

  lemma DeletedIsConcurrent()
    ensures var start := EDITED.(local := Exported(LAPTOP, EDITED.vault));
      && !Stale(start, DELETED) && !Stale(EDITED, DELETED) && IsConcurrent(start, DELETED)
      && Compare(Incremented(EDITED.Known("e").vector, "X", 1), Normalized(DELETED)) == Concurrent
  {
    var mine: Vector := map["X" := 1];
    var start := EDITED.(local := Exported(LAPTOP, EDITED.vault));
    assert Normalized(DELETED) == map["X" := 1, "Y" := 1];
    assert Get(mine, "Y") < Get(Normalized(DELETED), "Y");
    StaleMeansCovered(start, DELETED);
    StaleMeansCovered(EDITED, DELETED);
    EditedIsPushable();
    var pushed := Incremented(mine, "X", 1);
    assert pushed == map["X" := 2];
    assert pushed["X"] > Get(Normalized(DELETED), "X") && Normalized(DELETED)["Y"] > 0;
  }
}
