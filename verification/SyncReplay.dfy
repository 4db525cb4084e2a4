/** Pulling the same response again: when it changes nothing, and why conflicting credentials are the exception. */
module SyncReplay {
  import opened Options
  import opened VersionVectors
  import opened FieldMerge
  import opened SyncSpec
  import opened SyncSafety

  // ----- deferred records -----

  /** In this state the record stays among the deferred ones. */
  ghost predicate Keeps(cfg: Config, s: State, r: ServerRecord) {
    r.kind !in cfg.allowed || (Refused(cfg, r) && !Stale(s, r))
  }

  ghost function DeferOrDrop(cfg: Config, s: State, deferred: map<string, ServerRecord>,
                             r: ServerRecord): map<string, ServerRecord> {
    if Keeps(cfg, s, r) then deferred[r.id := r] else deferred - {r.id}
  }

  /** Every record of the batch, judged in the one state `s`. */
  ghost function DeferOrDropAll(cfg: Config, s: State, deferred: map<string, ServerRecord>,
                                batch: seq<ServerRecord>): map<string, ServerRecord>
    decreases |batch|
  {
    if batch == [] then deferred
    else DeferOrDropAll(cfg, s, DeferOrDrop(cfg, s, deferred, batch[0]), batch[1..])
  }

  ghost predicate Touches(batch: seq<ServerRecord>, id: string) { exists r :: r in batch && r.id == id }

  lemma TouchesSplit(batch: seq<ServerRecord>, id: string)
    requires batch != []
    ensures Touches(batch, id) <==> batch[0].id == id || Touches(batch[1..], id)
  {
    if Touches(batch, id) {
      var r :| r in batch && r.id == id;
      assert r == batch[0] || r in batch[1..];
    }
    assert batch[0] in batch;
  }

  /** An entry survives a batch untouched, or it is a record of the batch that stays deferred. */
  lemma {:induction false} DeferredAfter(cfg: Config, s: State, deferred: map<string, ServerRecord>,
                                         batch: seq<ServerRecord>, id: string)
    ensures var after := DeferOrDropAll(cfg, s, deferred, batch);
      && (!Touches(batch, id) ==> (id in after <==> id in deferred) && (id in after ==> after[id] == deferred[id]))
      && (Touches(batch, id) && id in after ==> after[id].id == id && Keeps(cfg, s, after[id]))
    decreases |batch|
  {
    hide Keeps, Touches;
    if batch != [] {
      TouchesSplit(batch, id);
      DeferredAfter(cfg, s, DeferOrDrop(cfg, s, deferred, batch[0]), batch[1..], id);
    } else {
      TouchesNothing(id);
    }
  }

  lemma TouchesNothing(id: string)
    ensures !Touches([], id)
  {}

  /** What a batch does to an entry it touches does not depend on what was there before. */
  lemma {:induction false} TouchedIsDecided(cfg: Config, s: State, d: map<string, ServerRecord>,
                                            e: map<string, ServerRecord>, batch: seq<ServerRecord>, id: string)
    requires Touches(batch, id) || ((id in d <==> id in e) && (id in d ==> d[id] == e[id]))
    ensures var x, y := DeferOrDropAll(cfg, s, d, batch), DeferOrDropAll(cfg, s, e, batch);
      (id in x <==> id in y) && (id in x ==> x[id] == y[id])
    decreases |batch|
  {
    hide Keeps, Touches;
    if batch != [] {
      TouchesSplit(batch, id);
      TouchedIsDecided(cfg, s, DeferOrDrop(cfg, s, d, batch[0]), DeferOrDrop(cfg, s, e, batch[0]), batch[1..], id);
    } else {
      TouchesNothing(id);
    }
  }

  lemma {:induction false} DeferOrDropAppend(cfg: Config, s: State, d: map<string, ServerRecord>,
                                             a: seq<ServerRecord>, b: seq<ServerRecord>)
    ensures DeferOrDropAll(cfg, s, d, a + b) == DeferOrDropAll(cfg, s, DeferOrDropAll(cfg, s, d, a), b)
    decreases |a|
  {
    hide DeferOrDrop;
    if a == [] {
      assert a + b == b;
    } else {
      assert (a + b)[1..] == a[1..] + b;
      DeferOrDropAppend(cfg, s, DeferOrDrop(cfg, s, d, a[0]), a[1..], b);
    }
  }

  lemma {:induction false} DeferAgain(cfg: Config, s: State, d: map<string, ServerRecord>, list: seq<ServerRecord>)
    requires forall r :: r in list ==> r.id in d && d[r.id] == r && Keeps(cfg, s, r)
    ensures DeferOrDropAll(cfg, s, d, list) == d
    decreases |list|
  {
    hide Keeps;
    if list != [] {
      assert list[0] in list;
      assert DeferOrDrop(cfg, s, d, list[0]) == d;
      DeferAgain(cfg, s, d, list[1..]);
    }
  }

  lemma DeferTwice(cfg: Config, s: State, d: map<string, ServerRecord>, a: seq<ServerRecord>, b: seq<ServerRecord>)
    ensures var e := DeferOrDropAll(cfg, s, d, a + b); DeferOrDropAll(cfg, s, e, b) == e
  {
    hide DeferOrDropAll, Touches;
    var before := DeferOrDropAll(cfg, s, d, a);
    DeferOrDropAppend(cfg, s, d, a, b);
    var e := DeferOrDropAll(cfg, s, before, b);
    forall id
      ensures id in DeferOrDropAll(cfg, s, e, b) <==> id in e
      ensures id in e ==> DeferOrDropAll(cfg, s, e, b)[id] == e[id]
    {
      if Touches(b, id) {
        TouchedIsDecided(cfg, s, e, before, b, id);
      } else {
        DeferredAfter(cfg, s, e, b, id);
      }
    }
  }

  // ----- a batch with nothing new -----

  ghost predicate Idle(cfg: Config, s: State, r: ServerRecord) { !Wanted(cfg, r) || Stale(s, r) }

  lemma IdleStepDefers(cfg: Config, s: State, t: Tally, r: ServerRecord, copy: EntityId)
    requires Idle(cfg, s, r)
    ensures Step(cfg, s, t, r, copy) == Outcome(s.(deferred := DeferOrDrop(cfg, s, s.deferred, r)), t, None)
  {
    hide Step, Stale, Refused;
    IdleStep(cfg, s, t, r, copy);
  }

  /** What a state without its deferred records decides. */
  lemma SameVerdicts(cfg: Config, s: State, s': State, batch: seq<ServerRecord>)
    requires s'.records == s.records
    ensures forall r ::
      && (Stale(s', r) <==> Stale(s, r)) && (Idle(cfg, s', r) <==> Idle(cfg, s, r))
      && (Keeps(cfg, s', r) <==> Keeps(cfg, s, r))
  {
    forall r ensures s'.Known(r) == s.Known(r) {}
  }

  lemma {:induction false} IdleBatch(cfg: Config, s: State, s': State, t: Tally, batch: seq<ServerRecord>,
                                     copies: seq<EntityId>)
    requires |copies| == |batch| && s == s'.(deferred := s.deferred) && forall r :: r in batch ==> Idle(cfg, s', r)
    ensures Pull(cfg, s, t, batch, copies) == Outcome(s.(deferred := DeferOrDropAll(cfg, s', s.deferred, batch)), t, None)
    decreases |batch|
  {
    hide Step, Idle, Keeps;
    if batch != [] {
      SameVerdicts(cfg, s', s, batch);
      assert batch[0] in batch;
      IdleStepDefers(cfg, s, t, batch[0], copies[0]);
      var next := s.(deferred := DeferOrDrop(cfg, s, s.deferred, batch[0]));
      IdleBatch(cfg, next, s', t, batch[1..], copies[1..]);
    }
  }

  // ----- a batch with something new -----

  lemma {:induction false} RecordsStay(cfg: Config, st: State, t: Tally, batch: seq<ServerRecord>, copies: seq<EntityId>)
    requires |copies| == |batch|
    ensures st.records.Keys <= Pull(cfg, st, t, batch, copies).state.records.Keys
    decreases |batch|
  {
    hide Step, Merged, Normalized, IsConcurrent, Stale;
    if batch != [] {
      var first := Step(cfg, st, t, batch[0], copies[0]);
      StepWrites(cfg, st, t, batch[0], copies[0]);
      if first.err.None? {
        RecordsStay(cfg, first.state, first.tally, batch[1..], copies[1..]);
      }
    }
  }

  /** Whatever record of a batch is new leaves a trace in the record states. */
  lemma {:induction false} NewsChange(cfg: Config, st: State, t: Tally, batch: seq<ServerRecord>, copies: seq<EntityId>)
    requires |copies| == |batch| && FreshCopies(st, batch, copies) && Pull(cfg, st, t, batch, copies).err.None?
    requires exists r :: r in batch && !Idle(cfg, st, r)
    ensures Pull(cfg, st, t, batch, copies).state.records != st.records
    decreases |batch|
  {
    hide Step, FreshCopies, Idle, Target;
    var first := Step(cfg, st, t, batch[0], copies[0]);
    FreshCopiesOfBatch(st, batch, copies);
    StepKeepsFresh(cfg, st, t, batch, copies);
    if Idle(cfg, st, batch[0]) {
      IdleStepDefers(cfg, st, t, batch[0], copies[0]);
      SameVerdicts(cfg, st, first.state, batch);
      var r :| r in batch && !Idle(cfg, st, r);
      assert r == batch[0] || r in batch[1..];
      NewsChange(cfg, first.state, first.tally, batch[1..], copies[1..]);
    } else {
      NewsLeaveTrace(cfg, st, t, batch, copies);
    }
  }

  lemma FreshCopiesOfBatch(st: State, batch: seq<ServerRecord>, copies: seq<EntityId>)
    requires FreshCopies(st, batch, copies)
    ensures |copies| == |batch| && (batch != [] ==> FreshCopy(st, batch[0], copies[0]))
  {}

  lemma NewsLeaveTrace(cfg: Config, st: State, t: Tally, batch: seq<ServerRecord>, copies: seq<EntityId>)
    requires |copies| == |batch| && FreshCopies(st, batch, copies) && batch != [] && Pull(cfg, st, t, batch, copies).err.None?
    requires !Idle(cfg, st, batch[0])
    ensures Pull(cfg, st, t, batch, copies).state.records != st.records
  {
    hide Step, FreshCopies, Refused, Target, Stale, Normalized, Merged, Leq, IsConcurrent;
    var r, first := batch[0], Step(cfg, st, t, batch[0], copies[0]);
    var s := Pull(cfg, st, t, batch, copies).state;
    FreshCopiesOfBatch(st, batch, copies);
    NewsStep(cfg, st, t, r, copies[0]);
    StepKeepsFresh(cfg, st, t, batch, copies);
    RecordsStay(cfg, first.state, first.tally, batch[1..], copies[1..]);
    if !ConflictingCredential(cfg, st, r) {
      PullNeverLowers(cfg, first.state, first.tally, batch[1..], copies[1..]);
      StaleMeansCovered(st, r);
      StaleMeansCovered(first.state, r);
      LeqTransitive(Normalized(r), first.state.Known(r.entity).vector, s.Known(r.entity).vector);
    }
  }

  // ----- the first pull -----

  /** Every wanted record that was not met as a conflict is old news in the end. */
  lemma {:induction false} MetIsSettled(cfg: Config, st: State, t: Tally, batch: seq<ServerRecord>,
                                        copies: seq<EntityId>, i: nat)
    requires |copies| == |batch| && FreshCopies(st, batch, copies) && Pull(cfg, st, t, batch, copies).err.None? && i < |batch|
    ensures var s, met := Pull(cfg, st, t, batch, copies).state, Met(cfg, st, t, batch, copies, i);
      && (Stale(met, batch[i]) ==> Stale(s, batch[i]))
      && (Wanted(cfg, batch[i]) && !ConflictingCredential(cfg, met, batch[i]) ==> Stale(s, batch[i]))
    decreases |batch|
  {
    hide Step, FreshCopies, Refused, Stale, Normalized, Merged, Leq, IsConcurrent, Wanted, ConflictingCredential;
    var first := Step(cfg, st, t, batch[0], copies[0]);
    var s, r := Pull(cfg, st, t, batch, copies).state, batch[0];
    FreshCopiesOfBatch(st, batch, copies);
    StepKeepsFresh(cfg, st, t, batch, copies);
    if i > 0 {
      MetIsSettled(cfg, first.state, first.tally, batch[1..], copies[1..], i - 1);
    } else {
      StepNeverLowers(cfg, st, t, r, copies[0]);
      PullNeverLowers(cfg, first.state, first.tally, batch[1..], copies[1..]);
      if Wanted(cfg, r) && !Stale(st, r) {
        NewsStep(cfg, st, t, r, copies[0]);
      }
      StaleMeansCovered(st, r);
      StaleMeansCovered(first.state, r);
      StaleMeansCovered(s, r);
      Covers(Normalized(r), st.Known(r.entity).vector, first.state.Known(r.entity).vector);
      Covers(Normalized(r), first.state.Known(r.entity).vector, s.Known(r.entity).vector);
    }
  }

  lemma Covers(a: Vector, b: Vector, c: Vector)
    ensures Leq(a, b) && Leq(b, c) ==> Leq(a, c)
  {
    if Leq(a, b) && Leq(b, c) {
      LeqTransitive(a, b, c);
    }
  }

  lemma StepDefers(cfg: Config, st: State, t: Tally, r: ServerRecord, copy: EntityId)
    requires Step(cfg, st, t, r, copy).err.None?
    ensures Step(cfg, st, t, r, copy).state.deferred == DeferOrDrop(cfg, st, st.deferred, r)
  {
    hide Step, Stale, Refused, Target, Merged, Normalized;
    if Idle(cfg, st, r) {
      IdleStepDefers(cfg, st, t, r, copy);
    } else {
      NewsStep(cfg, st, t, r, copy);
    }
  }

  /** After a pull a deferred record that its batch touched is the one of the batch that was deferred last. */
  lemma {:induction false} DeferredWhere(cfg: Config, st: State, t: Tally, batch: seq<ServerRecord>,
                                         copies: seq<EntityId>, id: string) returns (i: nat)
    requires |copies| == |batch| && Pull(cfg, st, t, batch, copies).err.None?
    requires id in Pull(cfg, st, t, batch, copies).state.deferred
    ensures var e := Pull(cfg, st, t, batch, copies).state.deferred[id];
      if Touches(batch, id)
      then i < |batch| && batch[i] == e && e.id == id && Keeps(cfg, Met(cfg, st, t, batch, copies, i), e)
      else id in st.deferred && e == st.deferred[id]
    decreases |batch|
  {
    hide Step, Touches, Keeps;
    i := 0;
    if batch != [] {
      var first := Step(cfg, st, t, batch[0], copies[0]);
      TouchesSplit(batch, id);
      StepDefers(cfg, st, t, batch[0], copies[0]);
      var j := DeferredWhere(cfg, first.state, first.tally, batch[1..], copies[1..], id);
      i := if Touches(batch[1..], id) then j + 1 else 0;
    } else {
      TouchesNothing(id);
    }
  }

  /** If nothing that is deferred in the end has become old, every record was judged as in the end. */
  lemma {:induction false} JudgedAsInTheEnd(cfg: Config, st: State, t: Tally, batch: seq<ServerRecord>,
                                            copies: seq<EntityId>)
    requires |copies| == |batch| && FreshCopies(st, batch, copies) && Pull(cfg, st, t, batch, copies).err.None?
    requires var s := Pull(cfg, st, t, batch, copies).state;
      forall id :: id in s.deferred && Touches(batch, id) ==> Keeps(cfg, s, s.deferred[id])
    ensures var s := Pull(cfg, st, t, batch, copies).state; s.deferred == DeferOrDropAll(cfg, s, st.deferred, batch)
    decreases |batch|
  {
    hide Step, FreshCopies, Touches, Keeps;
    if batch != [] {
      var r, first := batch[0], Step(cfg, st, t, batch[0], copies[0]);
      var s := Pull(cfg, st, t, batch, copies).state;
      FreshCopiesOfBatch(st, batch, copies);
      StepKeepsFresh(cfg, st, t, batch, copies);
      StepDefers(cfg, st, t, r, copies[0]);
      forall id ensures Touches(batch, id) <==> r.id == id || Touches(batch[1..], id) {
        TouchesSplit(batch, id);
      }
      JudgedAsInTheEnd(cfg, first.state, first.tally, batch[1..], copies[1..]);
      JudgedOnce(cfg, st, t, batch, copies);
    }
  }

  lemma JudgedOnce(cfg: Config, st: State, t: Tally, batch: seq<ServerRecord>, copies: seq<EntityId>)
    requires |copies| == |batch| && FreshCopies(st, batch, copies) && batch != [] && Pull(cfg, st, t, batch, copies).err.None?
    requires var s := Pull(cfg, st, t, batch, copies).state;
      && s.deferred == DeferOrDropAll(cfg, s, DeferOrDrop(cfg, st, st.deferred, batch[0]), batch[1..])
      && (batch[0].id in s.deferred ==> Keeps(cfg, s, s.deferred[batch[0].id]))
    ensures var s := Pull(cfg, st, t, batch, copies).state;
      s.deferred == DeferOrDropAll(cfg, s, DeferOrDrop(cfg, s, st.deferred, batch[0]), batch[1..])
  {
    hide Pull, Step, FreshCopies, Touches, Stale, Refused, DeferOrDropAll;
    var r, s := batch[0], Pull(cfg, st, t, batch, copies).state;
    MetIsSettled(cfg, st, t, batch, copies, 0);
    if Keeps(cfg, st, r) != Keeps(cfg, s, r) {
      var d, e := DeferOrDrop(cfg, st, st.deferred, r), DeferOrDrop(cfg, s, st.deferred, r);
      DeferredAfter(cfg, s, d, batch[1..], r.id);
      assert Touches(batch[1..], r.id);
      forall id
        ensures id in DeferOrDropAll(cfg, s, e, batch[1..]) <==> id in s.deferred
        ensures id in s.deferred ==> DeferOrDropAll(cfg, s, e, batch[1..])[id] == s.deferred[id]
      {
        TouchedIsDecided(cfg, s, d, e, batch[1..], id);
      }
    }
  }

  // ----- the second pull -----

  /** Pulling the same response again, right after a pull without errors, changes nothing at all - no vault
      row, no record state, no deferred record - if and only if no wanted record of the response is still news
      and no record of a synchronized kind that is still deferred has become old. */
  lemma PullTwiceIsPullOnce(cfg: Config, st: State, t: Tally, deferred: seq<ServerRecord>, response: seq<ServerRecord>,
                            copies: seq<EntityId>, deferred': seq<ServerRecord>, t': Tally, copies': seq<EntityId>)
    requires |copies| == |deferred + response|
    requires Lists(deferred, st.deferred) && FreshCopies(st, deferred + response, copies)
    requires Pull(cfg, st, t, deferred + response, copies).err.None?
    requires var s := Pull(cfg, st, t, deferred + response, copies).state;
      Lists(deferred', s.deferred) && FreshCopies(s, deferred' + response, copies') && |copies'| == |deferred' + response|
    ensures var s := Pull(cfg, st, t, deferred + response, copies).state;
      Pull(cfg, s, t', deferred' + response, copies') == Outcome(s, t', None) <==>
        && (forall r :: r in response && Wanted(cfg, r) ==> Stale(s, r))
        && (forall id :: id in s.deferred && s.deferred[id].kind in cfg.allowed ==> !Stale(s, s.deferred[id]))
  {
    hide Pull, FreshCopies, DeferOrDropAll, Stale, Refused;
    var batch, again := deferred + response, deferred' + response;
    var s := Pull(cfg, st, t, batch, copies).state;
    FreshCopiesOfBatch(s, again, copies');
    StillDeferred(cfg, st, t, deferred, response, copies);
    assert forall r :: r in again <==> r in deferred' || r in response;
    if forall r :: r in response && Wanted(cfg, r) ==> Stale(s, r) {
      IdleBatch(cfg, s, s, t', again, copies');
      DeferredTwice(cfg, st, t, deferred, response, copies, deferred');
    } else {
      var r :| r in response && Wanted(cfg, r) && !Stale(s, r);
      assert r in again && !Idle(cfg, s, r);
      if Pull(cfg, s, t', again, copies').err.None? {
        NewsChange(cfg, s, t', again, copies');
      }
    }
  }

  /** Only unwanted records stay deferred. */
  lemma StillDeferred(cfg: Config, st: State, t: Tally, deferred: seq<ServerRecord>, response: seq<ServerRecord>,
                      copies: seq<EntityId>)
    requires |copies| == |deferred + response| && Lists(deferred, st.deferred)
    requires Pull(cfg, st, t, deferred + response, copies).err.None?
    ensures var s := Pull(cfg, st, t, deferred + response, copies).state;
      forall id :: id in s.deferred ==>
        Touches(deferred + response, id) && s.deferred[id].id == id && !Wanted(cfg, s.deferred[id])
  {
    hide Pull, Refused, Stale, Met;
    var batch := deferred + response;
    var s := Pull(cfg, st, t, batch, copies).state;
    forall id | id in s.deferred
      ensures Touches(batch, id) && s.deferred[id].id == id && !Wanted(cfg, s.deferred[id])
    {
      var i := DeferredWhere(cfg, st, t, batch, copies, id);
      assert id in st.deferred ==> st.deferred[id] in batch;
    }
  }

  lemma DeferredTwice(cfg: Config, st: State, t: Tally, deferred: seq<ServerRecord>, response: seq<ServerRecord>,
                      copies: seq<EntityId>, deferred': seq<ServerRecord>)
    requires |copies| == |deferred + response|
    requires Lists(deferred, st.deferred) && FreshCopies(st, deferred + response, copies)
    requires Pull(cfg, st, t, deferred + response, copies).err.None?
    requires Lists(deferred', Pull(cfg, st, t, deferred + response, copies).state.deferred)
    ensures var s := Pull(cfg, st, t, deferred + response, copies).state;
      DeferOrDropAll(cfg, s, s.deferred, deferred' + response) == s.deferred <==>
        forall id :: id in s.deferred && s.deferred[id].kind in cfg.allowed ==> !Stale(s, s.deferred[id])
  {
    hide Pull, FreshCopies, DeferOrDropAll, Stale, Refused;
    var batch, s := deferred + response, Pull(cfg, st, t, deferred + response, copies).state;
    FreshCopiesOfBatch(st, batch, copies);
    StillDeferred(cfg, st, t, deferred, response, copies);
    if forall id :: id in s.deferred && s.deferred[id].kind in cfg.allowed ==> !Stale(s, s.deferred[id]) {
      JudgedAsInTheEnd(cfg, st, t, batch, copies);
      DeferTwice(cfg, s, st.deferred, deferred, response);
      DeferOrDropAppend(cfg, s, s.deferred, deferred', response);
      DeferAgain(cfg, s, s.deferred, deferred');
    } else {
      var id :| id in s.deferred && s.deferred[id].kind in cfg.allowed && Stale(s, s.deferred[id]);
      DeferredAfter(cfg, s, s.deferred, deferred' + response, id);
      assert s.deferred[id] in deferred' + response;
    }
  }

  // ----- conflicting credentials -----

  /** No other record of the batch is about the entity of one of its credentials. */
  ghost predicate CredentialsAlone(batch: seq<ServerRecord>) {
    forall i, j :: 0 <= i < |batch| && 0 <= j < |batch| && i != j && batch[i].kind == CREDENTIAL ==>
      batch[i].entity != batch[j].entity
  }

  /** What is known about a credential's entity stays as it was met, except that the record itself is taken in. */
  lemma {:induction false} CredentialIsMetOnce(cfg: Config, st: State, t: Tally, batch: seq<ServerRecord>,
                                               copies: seq<EntityId>, i: nat)
    requires |copies| == |batch| && FreshCopies(st, batch, copies) && Pull(cfg, st, t, batch, copies).err.None? && i < |batch|
    requires CredentialsAlone(batch) && batch[i].kind == CREDENTIAL
    ensures var s, met := Pull(cfg, st, t, batch, copies).state, Met(cfg, st, t, batch, copies, i);
      && (ConflictingCredential(cfg, met, batch[i]) ==> !Stale(s, batch[i]))
      && (!Wanted(cfg, batch[i]) ==> (Stale(s, batch[i]) <==> Stale(met, batch[i])))
    decreases |batch|
  {
    hide Step, FreshCopies, SparesEntity, Refused, Normalized, Merged, IsConcurrent, Compare, Target;
    var r, first := batch[i], Step(cfg, st, t, batch[0], copies[0]);
    FreshCopiesOfBatch(st, batch, copies);
    StepKeepsFresh(cfg, st, t, batch, copies);
    if i > 0 {
      CredentialIsMetOnce(cfg, first.state, first.tally, batch[1..], copies[1..], i - 1);
    } else {
      CopyIsAnother(st, batch, copies);
      assert first.state.Known(r.entity) == st.Known(r.entity) || (Wanted(cfg, r) && !ConflictingCredential(cfg, st, r)) by {
        if !Wanted(cfg, r) || Stale(st, r) {
          IdleStep(cfg, st, t, r, copies[0]);
        } else {
          NewsStep(cfg, st, t, r, copies[0]);
        }
      }
      RestSpares(st, batch, copies);
      PullLeavesAlone(cfg, first.state, first.tally, batch[1..], copies[1..], r.entity);
    }
  }

  lemma CopyIsAnother(st: State, batch: seq<ServerRecord>, copies: seq<EntityId>)
    requires |copies| == |batch| && FreshCopies(st, batch, copies) && batch != [] && batch[0].kind == CREDENTIAL
    ensures copies[0] != batch[0].entity
  {}

  lemma RestSpares(st: State, batch: seq<ServerRecord>, copies: seq<EntityId>)
    requires |copies| == |batch| && FreshCopies(st, batch, copies) && CredentialsAlone(batch)
    requires batch != [] && batch[0].kind == CREDENTIAL
    ensures SparesEntity(batch[1..], copies[1..], batch[0].entity)
  {}

  /** Where no two records concern one credential, pulling the same response again is harmless exactly if no
      credential of the response was met as a conflict. */
  lemma ReplayIsHarmlessIffNoConflict(cfg: Config, st: State, t: Tally, deferred: seq<ServerRecord>,
                                      response: seq<ServerRecord>, copies: seq<EntityId>, deferred': seq<ServerRecord>,
                                      t': Tally, copies': seq<EntityId>)
    requires |copies| == |deferred + response|
    requires Lists(deferred, st.deferred) && FreshCopies(st, deferred + response, copies)
    requires Pull(cfg, st, t, deferred + response, copies).err.None?
    requires var s := Pull(cfg, st, t, deferred + response, copies).state;
      Lists(deferred', s.deferred) && FreshCopies(s, deferred' + response, copies') && |copies'| == |deferred' + response|
    requires CredentialsAlone(deferred + response)
    ensures var batch, s := deferred + response, Pull(cfg, st, t, deferred + response, copies).state;
      Pull(cfg, s, t', deferred' + response, copies') == Outcome(s, t', None) <==>
        forall i :: |deferred| <= i < |batch| ==> !ConflictingCredential(cfg, Met(cfg, st, t, batch, copies, i), batch[i])
  {
    hide Pull, FreshCopies, Stale, Refused, ConflictingCredential, CredentialsAlone, Met;
    var batch, s := deferred + response, Pull(cfg, st, t, deferred + response, copies).state;
    FreshCopiesOfBatch(st, batch, copies);
    PullTwiceIsPullOnce(cfg, st, t, deferred, response, copies, deferred', t', copies');
    OldDeferredAreNews(cfg, st, t, deferred, response, copies);
    forall i | 0 <= i < |batch|
      ensures ConflictingCredential(cfg, Met(cfg, st, t, batch, copies, i), batch[i]) <==>
        Wanted(cfg, batch[i]) && !Stale(s, batch[i])
    {
      MetIsSettled(cfg, st, t, batch, copies, i);
      ConflictsAreCredentials(cfg, Met(cfg, st, t, batch, copies, i), batch[i]);
      if batch[i].kind == CREDENTIAL {
        CredentialIsMetOnce(cfg, st, t, batch, copies, i);
      }
    }
    forall i | 0 <= i < |response| ensures response[i] == batch[|deferred| + i] {}
  }

  lemma ConflictsAreCredentials(cfg: Config, st: State, r: ServerRecord)
    ensures ConflictingCredential(cfg, st, r) ==> r.kind == CREDENTIAL && Wanted(cfg, r)
  {}

  lemma OldDeferredAreNews(cfg: Config, st: State, t: Tally, deferred: seq<ServerRecord>, response: seq<ServerRecord>,
                           copies: seq<EntityId>)
    requires |copies| == |deferred + response|
    requires Lists(deferred, st.deferred) && FreshCopies(st, deferred + response, copies)
    requires Pull(cfg, st, t, deferred + response, copies).err.None?
    requires CredentialsAlone(deferred + response)
    ensures var s := Pull(cfg, st, t, deferred + response, copies).state;
      forall id :: id in s.deferred && s.deferred[id].kind in cfg.allowed ==> !Stale(s, s.deferred[id])
  {
    hide Pull, FreshCopies, Stale, CredentialsAlone, Met, Touches;
    var batch, s := deferred + response, Pull(cfg, st, t, deferred + response, copies).state;
    StillDeferred(cfg, st, t, deferred, response, copies);
    forall id | id in s.deferred && s.deferred[id].kind in cfg.allowed ensures !Stale(s, s.deferred[id]) {
      var i := DeferredWhere(cfg, st, t, batch, copies, id);
      CredentialIsMetOnce(cfg, st, t, batch, copies, i);
    }
  }

  // ----- two calls of the client -----

  /** The texts a pull works on stay those of the rows of synchronized kinds. */
  lemma StepKeepsExported(cfg: Config, st: State, t: Tally, r: ServerRecord, copy: EntityId)
    requires st.local == Exported(cfg, st.vault)
    ensures var s := Step(cfg, st, t, r, copy).state; s.local == Exported(cfg, s.vault)
  {
    hide Apply, CredentialAllowed, Compare, Normalized, Parse;
    var taken := st.Take(r);
    if r.kind in cfg.allowed && !Stale(taken, r) {
      match Open(cfg.key, r.body, r.Associated())
      case None =>
      case Some(payload) =>
        match Parse(payload, Normalized(r), r.deviceId)
        case None =>
        case Some(p) => ApplyKeepsExported(cfg, taken, t, r, p, copy);
    }
  }

  lemma ApplyKeepsExported(cfg: Config, st: State, t: Tally, r: ServerRecord, p: Parsed, copy: EntityId)
    requires st.local == Exported(cfg, st.vault) && r.kind in cfg.allowed
    ensures var s := Apply(st, t, r, p, copy).state; s.local == Exported(cfg, s.vault)
  {
    hide Merge, ConflictCopy, IsConcurrent, Merged, Normalized, MaxCounter, Exported;
    var o := Apply(st, t, r, p, copy);
    EraseKeepsExported(cfg, st, r.entity);
    if o.err.None? && !r.tombstone {
      var id := Target(st, r, copy);
      StoreKeepsExported(cfg, st, id, r.kind, o.state.vault[id].data);
    }
  }

  lemma EraseKeepsExported(cfg: Config, st: State, id: EntityId)
    requires st.local == Exported(cfg, st.vault)
    ensures st.Erase(id).local == Exported(cfg, st.Erase(id).vault)
  {}

  lemma StoreKeepsExported(cfg: Config, st: State, id: EntityId, kind: Kind, data: Json)
    requires st.local == Exported(cfg, st.vault) && kind in cfg.allowed
    ensures st.Store(id, kind, data).local == Exported(cfg, st.Store(id, kind, data).vault)
  {}

  lemma {:induction false} PullKeepsExported(cfg: Config, st: State, t: Tally, batch: seq<ServerRecord>,
                                             copies: seq<EntityId>)
    requires |copies| == |batch| && st.local == Exported(cfg, st.vault)
    ensures var s := Pull(cfg, st, t, batch, copies).state; s.local == Exported(cfg, s.vault)
    decreases |batch|
  {
    hide Step, Exported;
    if batch != [] {
      var first := Step(cfg, st, t, batch[0], copies[0]);
      StepKeepsExported(cfg, st, t, batch[0], copies[0]);
      if first.err.None? {
        PullKeepsExported(cfg, first.state, first.tally, batch[1..], copies[1..]);
      }
    }
  }

  /** The two theorems for two calls of the client's pull, each of which exports the texts anew: the second one
      starts from the very state that the first one left. */
  lemma ResponseTwiceIsResponseOnce(cfg: Config, st: State, t: Tally, deferred: seq<ServerRecord>,
                                    response: seq<ServerRecord>, copies: seq<EntityId>, deferred': seq<ServerRecord>,
                                    t': Tally, copies': seq<EntityId>)
    requires |copies| == |deferred + response| && Lists(deferred, st.deferred)
    requires var start := st.(local := Exported(cfg, st.vault));
      FreshCopies(start, deferred + response, copies) && Pull(cfg, start, t, deferred + response, copies).err.None?
    requires var s := Pull(cfg, st.(local := Exported(cfg, st.vault)), t, deferred + response, copies).state;
      Lists(deferred', s.deferred) && FreshCopies(s, deferred' + response, copies') && |copies'| == |deferred' + response|
    ensures var start, batch := st.(local := Exported(cfg, st.vault)), deferred + response;
      var s := Pull(cfg, start, t, batch, copies).state;
      var again := Pull(cfg, s.(local := Exported(cfg, s.vault)), t', deferred' + response, copies');
      && (again == Outcome(s, t', None) <==>
            && (forall r :: r in response && Wanted(cfg, r) ==> Stale(s, r))
            && (forall id :: id in s.deferred && s.deferred[id].kind in cfg.allowed ==> !Stale(s, s.deferred[id])))
      && (CredentialsAlone(batch) ==>
            (again == Outcome(s, t', None) <==>
              forall i :: |deferred| <= i < |batch| ==>
                !ConflictingCredential(cfg, Met(cfg, start, t, batch, copies, i), batch[i])))
  {
    hide Pull, FreshCopies, Stale, Wanted, ConflictingCredential, CredentialsAlone, Met, Exported;
    var start, batch := st.(local := Exported(cfg, st.vault)), deferred + response;
    PullKeepsExported(cfg, start, t, batch, copies);
    var s := Pull(cfg, start, t, batch, copies).state;
    assert s.(local := Exported(cfg, s.vault)) == s;
    PullTwiceIsPullOnce(cfg, start, t, deferred, response, copies, deferred', t', copies');
    if CredentialsAlone(batch) {
      ReplayIsHarmlessIffNoConflict(cfg, start, t, deferred, response, copies, deferred', t', copies');
    }
  }

  // ----- every replay copies again -----

  /** A credential changed on both sides is stored beside the local one, and once more by every replay. */
  lemma CredentialConflictRepeats(cfg: Config, st: State, t: Tally, r: ServerRecord, copy: EntityId, copy': EntityId)
    requires ConflictingCredential(cfg, st, r) && Read(cfg, r).Some? && Read(cfg, r).value.data.Members?
    requires copy != r.entity && copy' != r.entity && copy != copy'
    ensures var first := Step(cfg, st, t, r, copy); var second := Step(cfg, first.state, t, r, copy');
      var members := Read(cfg, r).value.data.members;
      && first.err.None? && second.err.None?
      && second.state.vault == st.vault
           [copy := Row(CREDENTIAL, Members(ConflictCopy(members, copy)))]
           [copy' := Row(CREDENTIAL, Members(ConflictCopy(members, copy')))]
  {
    hide Step, ConflictingCredential, ConflictCopy, Read;
    CredentialConflictCopies(cfg, st, t, r, copy);
    CredentialConflictCopies(cfg, Step(cfg, st, t, r, copy).state, t, r, copy');
  }

  lemma CredentialConflictCopies(cfg: Config, st: State, t: Tally, r: ServerRecord, copy: EntityId)
    requires ConflictingCredential(cfg, st, r) && Read(cfg, r).Some? && Read(cfg, r).value.data.Members? && copy != r.entity
    ensures var o := Step(cfg, st, t, r, copy);
      && o.err.None? && ConflictingCredential(cfg, o.state, r)
      && o.state.vault == st.vault[copy := Row(CREDENTIAL, Members(ConflictCopy(Read(cfg, r).value.data.members, copy)))]
  {
    hide ConflictCopy, Normalized, Merged, Compare, CredentialAllowed, MaxCounter, Parse;
    var taken, s := st.Take(r), Step(cfg, st, t, r, copy).state;
    assert taken.Known(r.entity) == st.Known(r.entity) && LocalOf(taken, r.entity) == LocalOf(st, r.entity);
    assert s.Known(r.entity) == st.Known(r.entity) && LocalOf(s, r.entity) == LocalOf(st, r.entity);
  }

  // ----- such a credential -----

  const CLIENT := Config("key", {CREDENTIAL}, Policy(map[], true))

  /** Synchronized as `{"name":"old"}`, and renamed since. */
  const RENAMED := State(
    map["c" := RecordState(1, map["X" := 1], Some(Sha256Record(Members(map["name" := "\"old\""]))), map[], false)], map[],
    map["c" := Row(CREDENTIAL, Members(map["name" := "\"mine\""]))], map["c" := Members(map["name" := "\"mine\""])])

  /** Another device's later version. */
  const THEIRS := ServerRecord("r", CREDENTIAL, "c", "Y", 1, map["X" := 1, "Y" := 1], false,
    Sealed("key", Aad(CREDENTIAL, "c", 1, map["X" := 1, "Y" := 1]), Envelope(Members(map["name" := "\"theirs\""]), map[])))

  /** A credential renamed on two devices conflicts, so pulling it twice stores two copies. */
  lemma RenamedTwiceConflicts(t: Tally)
    ensures ConflictingCredential(CLIENT, RENAMED, THEIRS)
    ensures var first := Step(CLIENT, RENAMED, t, THEIRS, "d"); var second := Step(CLIENT, first.state, t, THEIRS, "e");
      first.err.None? && second.err.None? && second.state.vault.Keys == {"c", "d", "e"}
  {
    hide Step, ConflictCopy;
    var mine: Vector := map["X" := 1];
    assert Normalized(THEIRS) == map["X" := 1, "Y" := 1];
    assert Get(mine, "Y") < Get(Normalized(THEIRS), "Y");
    StaleMeansCovered(RENAMED, THEIRS);
    assert Members(map["name" := "\"old\""]) != Members(map["name" := "\"mine\""]) by {
      assert map["name" := "\"old\""]["name"] != map["name" := "\"mine\""]["name"];
    }
    CredentialConflictRepeats(CLIENT, RENAMED, t, THEIRS, "d", "e");
  }
}
