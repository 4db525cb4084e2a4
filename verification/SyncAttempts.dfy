/** Synchronizations that fail after their push: when two pushes of a row carry the same clock, and what becomes of
    the second. */
module SyncAttempts {
  import opened Options
  import opened VersionVectors
  import opened FieldMerge
  import opened SyncSpec
  import opened SyncSafety
  import opened SyncEnvelope
  import opened Sync
  import opened SyncRuns
  import opened SyncEchoes

  /** How a synchronization goes on after its push: the pull succeeds, has no answer, or breaks off. */
  datatype Attempt =
    | Succeeds(list: seq<ServerRecord>, ids: seq<EntityId>)
    | Unanswered
    | Breaks(list: seq<ServerRecord>, ids: seq<EntityId>)

  ghost predicate Possible(cfg: Config, st: State, a: Attempt) {
    var start := st.(local := Exported(cfg, st.vault));
    match a
    case Unanswered => true
    case Succeeds(list, ids) =>
      |ids| == |list| && FreshCopies(start, list, ids) && Pull(cfg, start, Tally(0, 0), list, ids).err.None?
    case Breaks(list, ids) =>
      |ids| == |list| && FreshCopies(start, list, ids) && Pull(cfg, start, Tally(0, 0), list, ids).err.Some?
  }

  /** What is known and stored afterwards. */
  ghost function AfterAttempt(cfg: Config, st: State, journal: seq<Deletion>, device: DeviceId, a: Attempt): State
    requires Possible(cfg, st, a)
  {
    match a
    case Succeeds(list, ids) => AfterSync(cfg, st, journal, device, list, ids)
    case Unanswered => st
    case Breaks(list, ids) => Pull(cfg, st.(local := Exported(cfg, st.vault)), Tally(0, 0), list, ids).state
  }

  /** The clock under which the row would be pushed. */
  function NextClock(st: State, device: DeviceId, id: EntityId): Vector {
    Incremented(st.Known(id).vector, device, st.Known(id).version)
  }

  /** What that clock is the increment of. */
  function BaseClock(st: State, device: DeviceId, id: EntityId): Vector {
    Seeded(st.Known(id).vector, device, st.Known(id).version)
  }

  lemma NextClockIsInjective(st: State, next: State, device: DeviceId, id: EntityId)
    ensures NextClock(st, device, id) == NextClock(next, device, id) <==>
      BaseClock(st, device, id) == BaseClock(next, device, id)
  {
    var a, b := BaseClock(st, device, id), BaseClock(next, device, id);
    SeededCounters(st.Known(id).vector, device, st.Known(id).version);
    SeededCounters(next.Known(id).vector, device, next.Known(id).version);
    if NextClock(st, device, id) == NextClock(next, device, id) {
      assert Get(a, device) == Get(b, device) by {
        assert NextClock(st, device, id)[device] == Successor(Get(a, device));
        assert NextClock(next, device, id)[device] == Successor(Get(b, device));
      }
      forall other ensures Get(a, other) == Get(b, other) {
        if other != device {
          assert Get(NextClock(st, device, id), other) == Get(a, other);
          assert Get(NextClock(next, device, id), other) == Get(b, other);
        }
      }
      SameCounters(a, b);
    }
  }

  /** After a success the next clock is later. */
  lemma SuccessMovesClock(cfg: Config, st: State, journal: seq<Deletion>, device: DeviceId, a: Attempt, id: EntityId)
    requires Possible(cfg, st, a) && a.Succeeds?
    requires Pushable(cfg, st, id) && st.vault[id].data.Members? && forall d :: d in journal ==> d.entity != id
    requires Room(st, device, id) && Get(st.Known(id).vector, device) >= 0
    requires Room(AfterAttempt(cfg, st, journal, device, a), device, id)
    ensures Less(NextClock(st, device, id), NextClock(AfterAttempt(cfg, st, journal, device, a), device, id))
  {
    hide Pull, Incremented, Seeded, FreshCopies, Less, AfterSync;
    var after := AfterAttempt(cfg, st, journal, device, a);
    PushedIsKnown(cfg, st, journal, device, a.list, a.ids, id);
    IncrementStaysPositive(st.Known(id).vector, device, st.Known(id).version);
    KnownClock(st, device, id);
    IncrementDominates(after.Known(id).vector, device, after.Known(id).version);
  }

  lemma KnownClock(st: State, device: DeviceId, id: EntityId)
    requires Room(st, device, id) && id in st.vault && st.vault[id].data.Members?
    ensures PushedState(st.Known(id), st.vault[id].data.members, device).vector == NextClock(st, device, id)
    ensures Get(NextClock(st, device, id), device) >= 0
  {
    SeededCounters(st.Known(id).vector, device, st.Known(id).version);
    assert Get(NextClock(st, device, id), device) == Get(BaseClock(st, device, id), device) + 1;
  }

  /** A row that is known by a vector, as every row that this client has pushed or pulled. */
  ghost predicate KnownByVector(st: State, id: EntityId) { ByVector(st.Known(id).vector, st.Known(id).version) }

  ghost predicate ByVector(vector: Vector, version: int64) { Positive(vector) && (vector != map[] || version <= 0) }

  lemma FailureNeverLowers(cfg: Config, st: State, journal: seq<Deletion>, device: DeviceId, a: Attempt, id: EntityId)
    requires Possible(cfg, st, a) && !a.Succeeds?
    requires KnownByVector(st, id)
    ensures var next := AfterAttempt(cfg, st, journal, device, a);
      Leq(st.Known(id).vector, next.Known(id).vector) && KnownByVector(next, id)
  {
    hide Pull, FreshCopies;
    if a.Breaks? {
      PullStamps(cfg, st.(local := Exported(cfg, st.vault)), Tally(0, 0), a.list, a.ids, id);
      var start := st.(local := Exported(cfg, st.vault));
      PullNeverLowers(cfg, start, Tally(0, 0), a.list, a.ids);
      assert start.Known(id) == st.Known(id);
    }
  }

  lemma RaisedIsRaised(st: State, next: State, device: DeviceId, id: EntityId)
    requires KnownByVector(st, id) && KnownByVector(next, id) && Leq(st.Known(id).vector, next.Known(id).vector)
    ensures BaseClock(next, device, id) == BaseClock(st, device, id) <==> Leq(next.Known(id).vector, st.Known(id).vector)
  {
    var a, b := st.Known(id).vector, next.Known(id).vector;
    SeededIsSelf(a, device, st.Known(id).version);
    SeededIsSelf(b, device, next.Known(id).version);
    if Leq(b, a) {
      LeqAntisymmetric(a, b);
    }
  }

  lemma ApplyStamps(st: State, t: Tally, r: ServerRecord, p: Parsed, copy: EntityId, id: EntityId)
    requires KnownByVector(st, id)
    ensures KnownByVector(Apply(st, t, r, p, copy).state, id)
  {
    hide Apply, IsConcurrent, Normalized, Merged, MaxCounter, ByVector, Target;
    ApplyWrites(st, t, r, p, copy);
    ApplyVersion(st, t, r, p, copy);
    StampIsByVector(st.Known(r.entity).vector, Normalized(r));
  }

  lemma ApplyVersion(st: State, t: Tally, r: ServerRecord, p: Parsed, copy: EntityId)
    ensures var o, vector := Apply(st, t, r, p, copy), Merged(st.Known(r.entity).vector, Normalized(r));
      o.err.None? ==> o.state.Known(Target(st, r, copy)).version == MaxCounter(vector)
  {
    hide Merge, ConflictCopy, IsConcurrent, Normalized, Merged, MaxCounter;
  }

  lemma StampIsByVector(a: Vector, b: Vector)
    ensures ByVector(Merged(a, b), MaxCounter(Merged(a, b)))
  {
    hide Merged;
  }

  lemma StepStamps(cfg: Config, st: State, t: Tally, r: ServerRecord, copy: EntityId, id: EntityId)
    requires KnownByVector(st, id)
    ensures KnownByVector(Step(cfg, st, t, r, copy).state, id)
  {
    hide Apply, CredentialAllowed, Compare, Normalized, Parse;
    assert st.Take(r).Known(id) == st.Known(id) && st.Take(r).Defer(r).Known(id) == st.Known(id);
    match Open(cfg.key, r.body, r.Associated())
    case None =>
    case Some(payload) =>
      match Parse(payload, Normalized(r), r.deviceId)
      case None =>
      case Some(p) => ApplyStamps(st.Take(r), t, r, p, copy, id);
  }

  lemma {:induction false} PullStamps(cfg: Config, st: State, t: Tally, batch: seq<ServerRecord>, copies: seq<EntityId>,
                                      id: EntityId)
    requires |copies| == |batch| && KnownByVector(st, id)
    ensures KnownByVector(Pull(cfg, st, t, batch, copies).state, id)
    decreases |batch|
  {
    hide Step, KnownByVector;
    if batch != [] {
      var first := Step(cfg, st, t, batch[0], copies[0]);
      StepStamps(cfg, st, t, batch[0], copies[0], id);
      if first.err.None? {
        PullStamps(cfg, first.state, first.tally, batch[1..], copies[1..], id);
      }
    }
  }

  /** Two pushes of a row in a row carry the same clock exactly if the first synchronization failed without raising
      what is known of the row's clock. Then, and only then, one clock can carry two texts: those that the row has
      at the two pushes. */
  lemma ClockRepeatsIff(cfg: Config, st: State, journal: seq<Deletion>, device: DeviceId, a: Attempt, id: EntityId,
                        edited: map<EntityId, Row>, recordId: string, recordId': string)
    requires Possible(cfg, st, a) && KnownByVector(st, id)
    requires Pushable(cfg, st, id) && st.vault[id].data.Members? && forall d :: d in journal ==> d.entity != id
    requires Room(st, device, id)
    requires var next := AfterAttempt(cfg, st, journal, device, a).(vault := edited);
      Pushable(cfg, next, id) && edited[id].data.Members? && Room(next, device, id)
    ensures var next := AfterAttempt(cfg, st, journal, device, a).(vault := edited);
      var one, two := OwnPush(cfg, st, device, id, recordId), OwnPush(cfg, next, device, id, recordId');
      && (one.vector == two.vector <==> !a.Succeeds? && Leq(next.Known(id).vector, st.Known(id).vector))
      && Read(cfg, one).Some? && Read(cfg, one).value.data == st.vault[id].data
      && Read(cfg, two).Some? && Read(cfg, two).value.data == edited[id].data
  {
    hide Pull, Seeded, FreshCopies, AfterSync, EnvelopeFields, CredentialAllowed, Leq, KnownByVector;
    var after := AfterAttempt(cfg, st, journal, device, a);
    var next := after.(vault := edited);
    assert next.Known(id) == after.Known(id);
    KnownByVectorMeans(st, device, id);
    if a.Succeeds? {
      RoomIsKnown(after, next, device, id);
      SuccessMovesClock(cfg, st, journal, device, a, id);
      LessIsIrreflexive(NextClock(st, device, id));
    } else {
      FailureNeverLowers(cfg, st, journal, device, a, id);
      RaisedIsRaised(st, after, device, id);
      NextClockIsInjective(st, after, device, id);
    }
  }

  lemma KnownByVectorMeans(st: State, device: DeviceId, id: EntityId)
    requires KnownByVector(st, id)
    ensures Get(st.Known(id).vector, device) >= 0
  {}

  lemma RoomIsKnown(a: State, b: State, device: DeviceId, id: EntityId)
    requires a.Known(id) == b.Known(id)
    ensures Room(a, device, id) <==> Room(b, device, id)
    ensures NextClock(a, device, id) == NextClock(b, device, id)
  {}

  /** In particular when there was no answer to the pull. */
  lemma UnansweredRepeatsClock(cfg: Config, st: State, journal: seq<Deletion>, device: DeviceId, id: EntityId,
                               edited: map<EntityId, Row>)
    ensures var next := AfterAttempt(cfg, st, journal, device, Unanswered).(vault := edited);
      NextClock(next, device, id) == NextClock(st, device, id)
  {}

  /** A device that took in the first of two records with one clock ignores the second, whatever it says. */
  lemma SecondTextIsIgnored(cfg: Config, st: State, t: Tally, one: ServerRecord, two: ServerRecord,
                            copy: EntityId, u: Tally, copy': EntityId)
    requires one.entity == two.entity && Normalized(one) == Normalized(two) && two.kind in cfg.allowed
    requires Wanted(cfg, one) && !ConflictingCredential(cfg, st, one) && Step(cfg, st, t, one, copy).err.None?
    ensures var s := Step(cfg, st, t, one, copy).state;
      Step(cfg, s, u, two, copy') == Outcome(s.Take(two), u, None)
  {
    hide Step, Wanted, ConflictingCredential, Normalized, Stale, Merged, Target;
    var s := Step(cfg, st, t, one, copy).state;
    if Stale(st, one) {
      IdleStep(cfg, st, t, one, copy);
      StaleMeansCovered(st, one);
      assert s.Known(one.entity) == st.Known(one.entity);
    } else {
      NewsStep(cfg, st, t, one, copy);
      StaleMeansCovered(s, one);
    }
    StaleMeansCovered(s, two);
    IdleStep(cfg, s, u, two, copy');
  }
}
