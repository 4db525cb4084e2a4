/** The command history as an index with two maps, and the suggestions drawn from it. Times are instants;
    trimming and case folding are parameters. */
module HistoryIndex {
  import opened Options

  const DEFAULT_LIMIT: int := 20
  const MAX_LIMIT: int := 100

  const NUL: char := '\0'

  /** An empty connection means the entry counts for every connection. */
  datatype Entry = Entry(id: string, connection: string, command: string, useCount: nat, lastUsedAt: int)

  function HistoryKey(connection: string, command: string): string { connection + [NUL] + command }

  function SyntheticId(connection: string, command: string): string { "local:" + HistoryKey(connection, command) }

  function KeyOf(e: Entry): string { HistoryKey(e.connection, e.command) }

  lemma KeyIsInjective(a: string, b: string, c: string, d: string)
    requires NUL !in a && NUL !in c
    ensures HistoryKey(a, b) == HistoryKey(c, d) <==> a == c && b == d
  {
    var x, y := HistoryKey(a, b), HistoryKey(c, d);
    assert x[..|a|] == a && x[|a|] == NUL && x[|a| + 1..] == b;
    assert y[..|c|] == c && y[|c|] == NUL && y[|c| + 1..] == d;
    assert |a| < |c| ==> y[|a|] == c[|a|];
    assert |c| < |a| ==> x[|c|] == a[|c|];
  }

  datatype Index = Index(byId: map<string, Entry>, byKey: map<string, string>)

  const EMPTY := Index(map[], map[])

  // ----- the two maps are inverse -----

  /** An identifier is not empty, and if it is one that this client makes up, it is the one for its entry. */
  predicate ProperId(e: Entry) {
    && e.id != ""
    && NUL !in e.connection
    && ("local:" <= e.id ==> e.id == SyntheticId(e.connection, e.command))
  }

  predicate Inverse(x: Index) {
    && (forall id :: id in x.byId ==> x.byId[id].id == id && ProperId(x.byId[id]))
    && (forall id :: id in x.byId ==> KeyOf(x.byId[id]) in x.byKey && x.byKey[KeyOf(x.byId[id])] == id)
    && (forall key :: key in x.byKey ==> x.byKey[key] in x.byId && KeyOf(x.byId[x.byKey[key]]) == key)
  }

  datatype Scope = Scope(connection: string, command: string)

  datatype Usage = Usage(id: string, count: nat, at: int)

  function UsageOf(e: Entry): Usage { Usage(e.id, e.useCount, e.lastUsedAt) }

  function ScopeOf(e: Entry): Scope { Scope(e.connection, e.command) }

  /** What the index means: under which identifier, how often and when each command was last used in each scope. */
  ghost function View(x: Index): map<Scope, Usage>
    requires Inverse(x)
  {
    assert forall a, b :: a in x.byId && b in x.byId && ScopeOf(x.byId[a]) == ScopeOf(x.byId[b]) ==> a == b;
    map id | id in x.byId :: ScopeOf(x.byId[id]) := UsageOf(x.byId[id])
  }

  // ----- operations -----

  function Put(x: Index, e: Entry): Index { Index(x.byId[e.id := e], x.byKey[KeyOf(e) := e.id]) }

  function PutAll(x: Index, entries: seq<Entry>): Index
    decreases |entries|
  {
    if entries == [] then x else PutAll(Put(x, entries[0]), entries[1..])
  }

  function Upsert(x: Index, connection: string, command: string, at: int): Index {
    var key := HistoryKey(connection, command);
    if key in x.byKey && x.byKey[key] != "" && x.byKey[key] in x.byId then
      var e := x.byId[x.byKey[key]];
      x.(byId := x.byId[x.byKey[key] := e.(useCount := e.useCount + 1, lastUsedAt := at)])
    else Put(x, Entry(SyntheticId(connection, command), connection, command, 1, at))
  }

  function Record(x: Index, connection: string, command: string, at: int): Index {
    if connection == "" then Upsert(x, "", command, at)
    else Upsert(Upsert(x, connection, command, at), "", command, at)
  }

  function DeleteId(x: Index, id: string): Index {
    if id !in x.byId then x
    else
      var key := KeyOf(x.byId[id]);
      Index(x.byId - {id}, if key in x.byKey && x.byKey[key] == id then x.byKey - {key} else x.byKey)
  }

  function DeleteIds(x: Index, ids: seq<string>): Index
    decreases |ids|
  {
    if ids == [] then x else DeleteIds(DeleteId(x, ids[0]), ids[1..])
  }

  // ----- what they mean -----

  function Used(v: map<Scope, Usage>, s: Scope, at: int): map<Scope, Usage> {
    v[s := if s in v then Usage(v[s].id, v[s].count + 1, at) else Usage(SyntheticId(s.connection, s.command), 1, at)]
  }

  lemma ViewAt(x: Index, s: Scope)
    requires Inverse(x) && NUL !in s.connection
    ensures var key := HistoryKey(s.connection, s.command);
      && (s in View(x) <==> key in x.byKey)
      && (key in x.byKey ==>
            && x.byKey[key] in x.byId && ScopeOf(x.byId[x.byKey[key]]) == s
            && View(x)[s] == UsageOf(x.byId[x.byKey[key]]))
  {
    var key := HistoryKey(s.connection, s.command);
    if key in x.byKey {
      var e := x.byId[x.byKey[key]];
      KeyIsInjective(e.connection, e.command, s.connection, s.command);
    }
  }

  /** Two indices with inverse maps that answer alike for every scope have the same meaning. */
  lemma SameView(x: Index, v: map<Scope, Usage>)
    requires Inverse(x) && forall s :: s in v ==> NUL !in s.connection
    requires forall s: Scope :: NUL !in s.connection ==> (s in View(x) <==> s in v) && (s in v ==> View(x)[s] == v[s])
    ensures View(x) == v
  {
    forall s | s in View(x) ensures NUL !in s.connection {
      var id :| id in x.byId && ScopeOf(x.byId[id]) == s;
    }
  }

  lemma ViewScopes(x: Index)
    requires Inverse(x)
    ensures forall s :: s in View(x) ==> NUL !in s.connection
  {
    forall s | s in View(x) ensures NUL !in s.connection {
      var id :| id in x.byId && ScopeOf(x.byId[id]) == s;
    }
  }

  function UsageAt(x: Index, key: string): Option<Usage> {
    if key in x.byKey && x.byKey[key] in x.byId
    then Some(UsageOf(x.byId[x.byKey[key]]))
    else None
  }

  function With(v: map<Scope, Usage>, s: Scope, u: Option<Usage>): map<Scope, Usage> {
    if u.Some? then v[s := u.value] else v - {s}
  }

  lemma ViewUsage(x: Index, s: Scope)
    requires Inverse(x) && NUL !in s.connection
    ensures UsageAt(x, HistoryKey(s.connection, s.command)) == if s in View(x) then Some(View(x)[s]) else None
  {
    hide HistoryKey, View, Inverse;
    ViewAt(x, s);
  }

  /** Two indices that differ in one scope only. */
  lemma ViewChanges(x: Index, y: Index, s: Scope, u: Option<Usage>)
    requires Inverse(x) && Inverse(y) && NUL !in s.connection
    requires UsageAt(y, HistoryKey(s.connection, s.command)) == u
    requires forall key :: key != HistoryKey(s.connection, s.command) ==> UsageAt(x, key) == UsageAt(y, key)
    ensures View(y) == With(View(x), s, u)
  {
    hide HistoryKey, View, Inverse, UsageAt;
    ViewScopes(x);
    var v := With(View(x), s, u);
    forall t: Scope | NUL !in t.connection
      ensures t in View(y) <==> t in v
      ensures t in v ==> View(y)[t] == v[t]
    {
      ViewUsage(x, t);
      ViewUsage(y, t);
      KeyIsInjective(s.connection, s.command, t.connection, t.command);
    }
    SameView(y, v);
  }

  lemma PutNew(x: Index, e: Entry)
    requires Inverse(x) && ProperId(e) && e.id !in x.byId && KeyOf(e) !in x.byKey
    ensures Inverse(Put(x, e))
    ensures View(Put(x, e)) == View(x)[ScopeOf(e) := UsageOf(e)]
  {
    hide HistoryKey, View;
    ViewChanges(x, Put(x, e), ScopeOf(e), Some(UsageOf(e)));
  }

  /** One use more in the given scope, and nothing else. */
  lemma UpsertCounts(x: Index, connection: string, command: string, at: int)
    requires Inverse(x) && NUL !in connection
    ensures Inverse(Upsert(x, connection, command, at))
    ensures View(Upsert(x, connection, command, at)) == Used(View(x), Scope(connection, command), at)
  {
    hide View;
    var s, key := Scope(connection, command), HistoryKey(connection, command);
    ViewUsage(x, s);
    if key in x.byKey {
      UpsertKnown(x, s, at);
    } else {
      SyntheticIsFree(x, connection, command);
      PutNew(x, Entry(SyntheticId(connection, command), connection, command, 1, at));
    }
  }

  /** An identifier that this client makes up is only in use by the entry it is made for. */
  lemma SyntheticIsFree(x: Index, connection: string, command: string)
    requires Inverse(x) && HistoryKey(connection, command) !in x.byKey
    ensures SyntheticId(connection, command) !in x.byId && "local:" <= SyntheticId(connection, command)
  {
    var id := SyntheticId(connection, command);
    assert id[..6] == "local:" && id[6..] == HistoryKey(connection, command);
    forall e: Entry | id == SyntheticId(e.connection, e.command) ensures KeyOf(e) == HistoryKey(connection, command) {
      assert SyntheticId(e.connection, e.command)[6..] == KeyOf(e);
    }
  }

  lemma UpsertKnown(x: Index, s: Scope, at: int)
    requires Inverse(x) && NUL !in s.connection && HistoryKey(s.connection, s.command) in x.byKey
    ensures var y := Upsert(x, s.connection, s.command, at); Inverse(y) && View(y) == Used(View(x), s, at)
  {
    hide HistoryKey, View;
    ViewUsage(x, s);
    var y := Upsert(x, s.connection, s.command, at);
    ViewChanges(x, y, s, Some(Usage(View(x)[s].id, View(x)[s].count + 1, at)));
  }

  /** A recorded command counts once for its connection and once for all of them. */
  lemma RecordCounts(x: Index, connection: string, command: string, at: int)
    requires Inverse(x) && NUL !in connection
    ensures Inverse(Record(x, connection, command, at))
    ensures View(Record(x, connection, command, at)) ==
      var global := Scope("", command);
      if connection == "" then Used(View(x), global, at)
      else Used(Used(View(x), Scope(connection, command), at), global, at)
  {
    UpsertCounts(x, connection, command, at);
    if connection != "" {
      UpsertCounts(Upsert(x, connection, command, at), "", command, at);
    }
  }

  lemma DeleteForgets(x: Index, id: string)
    requires Inverse(x)
    ensures Inverse(DeleteId(x, id))
    ensures View(DeleteId(x, id)) == if id in x.byId then View(x) - {ScopeOf(x.byId[id])} else View(x)
  {
    hide HistoryKey, View;
    if id in x.byId {
      ViewChanges(x, DeleteId(x, id), ScopeOf(x.byId[id]), None);
    }
  }

  /** The scopes of the entries with the given identifiers. */
  ghost function Scopes(x: Index, ids: seq<string>): set<Scope> { set id | id in ids && id in x.byId :: ScopeOf(x.byId[id]) }

  lemma ScopesSplit(x: Index, ids: seq<string>)
    requires ids != []
    ensures Scopes(x, ids) ==
      (if ids[0] in x.byId then {ScopeOf(x.byId[ids[0]])} else {}) + Scopes(DeleteId(x, ids[0]), ids[1..])
  {
    var y := DeleteId(x, ids[0]);
    forall id ensures id in ids && id in x.byId <==> (id == ids[0] && id in x.byId) || (id in ids[1..] && id in y.byId) {}
    forall s ensures s in Scopes(x, ids) <==>
      (ids[0] in x.byId && s == ScopeOf(x.byId[ids[0]])) || s in Scopes(y, ids[1..])
    {
      if s in Scopes(x, ids) {
        var id :| id in ids && id in x.byId && ScopeOf(x.byId[id]) == s;
        assert id == ids[0] || id in Scoped(y, ids[1..]);
      }
      if s in Scopes(y, ids[1..]) {
        var id :| id in ids[1..] && id in y.byId && ScopeOf(y.byId[id]) == s;
        assert id in ids;
      }
    }
  }

  ghost function Scoped(x: Index, ids: seq<string>): set<string> { set id | id in ids && id in x.byId }

  lemma {:induction false} DeleteAllForgets(x: Index, ids: seq<string>)
    requires Inverse(x)
    ensures Inverse(DeleteIds(x, ids))
    ensures View(DeleteIds(x, ids)) == View(x) - Scopes(x, ids)
    decreases |ids|
  {
    hide HistoryKey, View, Inverse, DeleteId;
    if ids == [] {
      assert View(x) - Scopes(x, []) == View(x);
    } else {
      hide Scopes;
      var y := DeleteId(x, ids[0]);
      DeleteForgets(x, ids[0]);
      DeleteAllForgets(y, ids[1..]);
      ScopesSplit(x, ids);
      var gone := if ids[0] in x.byId then {ScopeOf(x.byId[ids[0]])} else {};
      assert View(y) - Scopes(y, ids[1..]) == View(x) - (gone + Scopes(y, ids[1..]));
    }
  }

  /** A snapshot with unique identifiers and unique scopes. */
  predicate Unique(entries: seq<Entry>) {
    && (forall i :: 0 <= i < |entries| ==> ProperId(entries[i]))
    && (forall i, j :: 0 <= i < j < |entries| ==>
          entries[i].id != entries[j].id && ScopeOf(entries[i]) != ScopeOf(entries[j]))
  }

  ghost function Snapshot(v: map<Scope, Usage>, entries: seq<Entry>): map<Scope, Usage>
    decreases |entries|
  {
    if entries == [] then v
    else Snapshot(v[ScopeOf(entries[0]) := UsageOf(entries[0])], entries[1..])
  }

  lemma {:induction false} ReplaceLoads(x: Index, entries: seq<Entry>)
    requires Inverse(x) && Unique(entries)
    requires forall i :: 0 <= i < |entries| ==> entries[i].id !in x.byId && KeyOf(entries[i]) !in x.byKey
    ensures Inverse(PutAll(x, entries)) && View(PutAll(x, entries)) == Snapshot(View(x), entries)
    decreases |entries|
  {
    hide HistoryKey, View, Inverse;
    if entries != [] {
      var e := entries[0];
      PutNew(x, e);
      var y := Put(x, e);
      forall i | 0 <= i < |entries[1..]| ensures entries[1..][i].id !in y.byId && KeyOf(entries[1..][i]) !in y.byKey {
        KeyIsInjective(e.connection, e.command, entries[i + 1].connection, entries[i + 1].command);
      }
      ReplaceLoads(y, entries[1..]);
    }
  }

  lemma {:induction false} SnapshotHolds(v: map<Scope, Usage>, entries: seq<Entry>, s: Scope)
    requires Unique(entries)
    ensures var w := Snapshot(v, entries);
      && (forall i :: 0 <= i < |entries| && ScopeOf(entries[i]) == s ==>
            s in w && w[s] == UsageOf(entries[i]))
      && ((forall i :: 0 <= i < |entries| ==> ScopeOf(entries[i]) != s) ==> (s in w <==> s in v) && (s in v ==> w[s] == v[s]))
    decreases |entries|
  {
    if entries != [] {
      var e, rest := entries[0], entries[1..];
      SnapshotHolds(v[ScopeOf(e) := UsageOf(e)], rest, s);
      forall i | 0 <= i < |rest| ensures rest[i] == entries[i + 1] {}
    }
  }

  lemma EmptyMeansNothing()
    ensures Inverse(EMPTY) && View(EMPTY) == map[]
  {}

  /** Loading a snapshot: the index means exactly its entries. */
  lemma ReplaceMeansSnapshot(entries: seq<Entry>, s: Scope)
    requires Unique(entries)
    ensures var x := PutAll(EMPTY, entries);
      && Inverse(x)
      && (s in View(x) <==> exists i :: 0 <= i < |entries| && ScopeOf(entries[i]) == s)
      && forall i :: 0 <= i < |entries| && ScopeOf(entries[i]) == s ==>
           View(x)[s] == UsageOf(entries[i])
  {
    hide PutAll, Snapshot, Inverse, View, ProperId, HistoryKey;
    EmptyMeansNothing();
    ReplaceLoads(EMPTY, entries);
    SnapshotHolds(View(EMPTY), entries, s);
  }

  // ----- the object -----

  function Matching(x: Index, connection: string, command: string): set<string> {
    set id | id in x.byId && x.byId[id].command == command
             && (x.byId[id].connection == connection || x.byId[id].connection == "")
  }

  class CommandHistoryIndex {
    var byId: map<string, Entry>
    var byKey: map<string, string>
    const trim: string -> string
    const fold: string -> string

    ghost function Model(): Index
      reads this`byId, this`byKey
    {
      Index(byId, byKey)
    }

    constructor (trim: string -> string, fold: string -> string)
      ensures Model() == EMPTY && this.trim == trim && this.fold == fold
    {
      byId, byKey := map[], map[];
      this.trim, this.fold := trim, fold;
    }

    method Replace(entries: seq<Entry>)
      modifies this`byId, this`byKey
      ensures Model() == PutAll(EMPTY, entries)
    {
      byId, byKey := map[], map[];
      var i := 0;
      assert entries[0..] == entries;
      while i < |entries|
        invariant i <= |entries|
        invariant PutAll(Model(), entries[i..]) == PutAll(EMPTY, entries)
      {
        assert entries[i..][1..] == entries[i + 1..];
        var copy := entries[i];
        byId := byId[copy.id := copy];
        byKey := byKey[HistoryKey(copy.connection, copy.command) := copy.id];
        i := i + 1;
      }
    }

    method UpsertEntry(connection: string, command: string, at: int)
      modifies this`byId, this`byKey
      ensures Model() == Upsert(old(Model()), connection, command, at)
    {
      var key := HistoryKey(connection, command);
      if key in byKey && byKey[key] != "" {
        var existingId := byKey[key];
        if existingId in byId {
          var existing := byId[existingId];
          byId := byId[existingId := existing.(useCount := existing.useCount + 1, lastUsedAt := at)];
          return;
        }
      }
      var entry := Entry(SyntheticId(connection, command), connection, command, 1, at);
      byId := byId[entry.id := entry];
      byKey := byKey[key := entry.id];
    }

    method RecordUse(connection: string, command: string, at: int)
      modifies this`byId, this`byKey
      ensures Model() == Record(old(Model()), connection, command, at)
    {
      hide Upsert;
      var scopes := if connection != "" then [connection, ""] else [""];
      UpsertEntry(scopes[0], command, at);
      if |scopes| > 1 {
        UpsertEntry(scopes[1], command, at);
      }
    }

    method DeleteById(id: string)
      modifies this`byId, this`byKey
      ensures Model() == DeleteId(old(Model()), id)
    {
      if id !in byId {
        return;
      }
      var existing := byId[id];
      byId := byId - {id};
      var key := HistoryKey(existing.connection, existing.command);
      if key in byKey && byKey[key] == id {
        byKey := byKey - {key};
      }
    }

    method DeleteRecords(ids: seq<string>)
      modifies this`byId, this`byKey
      ensures Model() == DeleteIds(old(Model()), ids)
    {
      hide DeleteId;
      var i := 0;
      assert ids[0..] == ids;
      while i < |ids|
        invariant i <= |ids|
        invariant DeleteIds(Model(), ids[i..]) == DeleteIds(old(Model()), ids)
      {
        assert ids[i..][1..] == ids[i + 1..];
        DeleteById(ids[i]);
        i := i + 1;
      }
    }

    /** Removes a command from its connection and from the global scope, in whatever order they are visited. */
    method DeleteCommand(connection: string, command: string)
      modifies this`byId, this`byKey
      ensures Model() == DeleteCommandFrom(old(Model()), connection, trim(command))
    {
      hide DeleteId, Without;
      var normalized := trim(command);
      if normalized == "" {
        return;
      }
      var entries := byId;
      ghost var before, removed := Model(), [];
      var ids := entries.Keys;
      while ids != {}
        invariant ids <= entries.Keys
        invariant Model() == DeleteIds(before, removed)
        invariant forall id :: id in removed <==> id !in ids && id in Matching(before, connection, normalized)
        decreases |ids|
      {
        var id :| id in ids;
        ids := ids - {id};
        var entry := entries[id];
        if entry.command == normalized && (entry.connection == connection || entry.connection == "") {
          DeleteIdsSnoc(before, removed, id);
          DeleteById(id);
          removed := removed + [id];
        }
      }
      DeleteIdsIsWithout(before, removed);
      assert (set id | id in removed) == Matching(before, connection, normalized);
    }
  }

  /** The index without the given entries and without the keys that led to them. */
  function Without(x: Index, ids: set<string>): Index {
    Index(x.byId - ids,
          map key | key in x.byKey && !Led(x, ids, key) :: x.byKey[key])
  }

  predicate Led(x: Index, ids: set<string>, key: string)
    requires key in x.byKey
  {
    x.byKey[key] in ids && x.byKey[key] in x.byId && KeyOf(x.byId[x.byKey[key]]) == key
  }

  function DeleteCommandFrom(x: Index, connection: string, command: string): Index {
    if command == "" then x else Without(x, Matching(x, connection, command))
  }

  lemma DeleteOneIsWithout(x: Index, id: string, rest: set<string>)
    ensures Without(DeleteId(x, id), rest) == Without(x, {id} + rest)
  {
    hide HistoryKey;
    var a, b := Without(DeleteId(x, id), rest), Without(x, {id} + rest);
    assert a.byId == b.byId;
    forall key
      ensures key in a.byKey <==> key in b.byKey
      ensures key in a.byKey ==> a.byKey[key] == b.byKey[key]
    {}
  }

  lemma {:induction false} DeleteIdsIsWithout(x: Index, ids: seq<string>)
    ensures DeleteIds(x, ids) == Without(x, set id | id in ids)
    decreases |ids|
  {
    hide DeleteId;
    if ids == [] {
      assert Without(x, {}) == x;
      assert (set id | id in ids) == {};
    } else {
      DeleteIdsIsWithout(DeleteId(x, ids[0]), ids[1..]);
      DeleteOneIsWithout(x, ids[0], set id | id in ids[1..]);
      assert (set id | id in ids) == {ids[0]} + set id | id in ids[1..];
    }
  }

  lemma {:induction false} DeleteIdsSnoc(x: Index, ids: seq<string>, id: string)
    ensures DeleteIds(x, ids + [id]) == DeleteId(DeleteIds(x, ids), id)
    decreases |ids|
  {
    hide DeleteId;
    if ids == [] {
      assert ids + [id] == [id] && [id][1..] == [];
    } else {
      assert (ids + [id])[1..] == ids[1..] + [id];
      DeleteIdsSnoc(DeleteId(x, ids[0]), ids[1..], id);
    }
  }

  ghost function Listed(ids: set<string>): (list: seq<string>)
    ensures forall id :: id in list <==> id in ids
    decreases |ids|
  {
    if ids == {} then [] else var id :| id in ids; [id] + Listed(ids - {id})
  }

  /** Deleting a command forgets exactly its two scopes. */
  lemma DeleteCommandForgets(x: Index, connection: string, command: string)
    requires Inverse(x) && NUL !in connection && command != ""
    ensures Inverse(DeleteCommandFrom(x, connection, command))
    ensures View(DeleteCommandFrom(x, connection, command)) == View(x) - {Scope(connection, command), Scope("", command)}
  {
    hide DeleteIds, Inverse, View, Without;
    var removed := Listed(Matching(x, connection, command));
    DeleteAllForgets(x, removed);
    DeleteIdsIsWithout(x, removed);
    assert (set id | id in removed) == Matching(x, connection, command);
    var two := {Scope(connection, command), Scope("", command)};
    forall s | s in View(x) ensures s in Scopes(x, removed) <==> s in two {
      ScopeIsUsed(x, s);
      var id :| id in x.byId && ScopeOf(x.byId[id]) == s;
      assert s in two <==> id in Matching(x, connection, command);
      if s in Scopes(x, removed) {
        var other :| other in removed && other in x.byId && ScopeOf(x.byId[other]) == s;
        assert other in Matching(x, connection, command);
      }
    }
  }

  lemma ScopeIsUsed(x: Index, s: Scope)
    requires Inverse(x)
    ensures s in View(x) <==> exists id :: id in x.byId && ScopeOf(x.byId[id]) == s
  {}

  // ----- every sequence of changes -----

  datatype Change =
    | Hydrate(entries: seq<Entry>)
    | RecordOne(connection: string, command: string, at: int)
    | DeleteOne(connection: string, command: string)
    | DeleteMany(ids: seq<string>)

  /** What a change makes of an index; commands are already trimmed. */
  function Changed(x: Index, c: Change): Index {
    match c
    case Hydrate(entries) => PutAll(EMPTY, entries)
    case RecordOne(connection, command, at) => Record(x, connection, command, at)
    case DeleteOne(connection, command) => DeleteCommandFrom(x, connection, command)
    case DeleteMany(ids) => DeleteIds(x, ids)
  }

  function ChangedAll(x: Index, changes: seq<Change>): Index
    decreases |changes|
  {
    if changes == [] then x else ChangedAll(Changed(x, changes[0]), changes[1..])
  }

  /** What the same change makes of a plain map from scopes to their usage. */
  ghost function Meant(v: map<Scope, Usage>, c: Change): map<Scope, Usage> {
    match c
    case Hydrate(entries) => Snapshot(map[], entries)
    case RecordOne(connection, command, at) =>
      var global := Scope("", command);
      if connection == "" then Used(v, global, at) else Used(Used(v, Scope(connection, command), at), global, at)
    case DeleteOne(connection, command) =>
      if command == "" then v else v - {Scope(connection, command), Scope("", command)}
    case DeleteMany(ids) => map s | s in v && v[s].id !in ids :: v[s]
  }

  ghost function MeantAll(v: map<Scope, Usage>, changes: seq<Change>): map<Scope, Usage>
    decreases |changes|
  {
    if changes == [] then v else MeantAll(Meant(v, changes[0]), changes[1..])
  }

  /** Connections have no NUL in their names, and a snapshot has unique identifiers and scopes. */
  predicate Proper(c: Change) {
    match c
    case Hydrate(entries) => Unique(entries)
    case RecordOne(connection, _, _) => NUL !in connection
    case DeleteOne(connection, _) => NUL !in connection
    case DeleteMany(_) => true
  }

  lemma ScopesByUsage(x: Index, ids: seq<string>)
    requires Inverse(x)
    ensures View(x) - Scopes(x, ids) == Meant(View(x), DeleteMany(ids))
  {
    hide HistoryKey, ProperId;
    forall s | s in View(x) ensures s in Scopes(x, ids) <==> View(x)[s].id in ids {
      var id :| id in x.byId && ScopeOf(x.byId[id]) == s;
      assert View(x)[s] == UsageOf(x.byId[id]);
      if s in Scopes(x, ids) {
        var other :| other in ids && other in x.byId && ScopeOf(x.byId[other]) == s;
        assert View(x)[s] == UsageOf(x.byId[other]);
      }
    }
  }

  lemma ChangeIsMeant(x: Index, c: Change)
    requires Inverse(x) && Proper(c)
    ensures Inverse(Changed(x, c)) && View(Changed(x, c)) == Meant(View(x), c)
  {
    hide Inverse, View, HistoryKey, ProperId, Record, DeleteIds, DeleteCommandFrom, PutAll, Snapshot, Scopes;
    match c
    case Hydrate(entries) =>
      EmptyMeansNothing();
      assert forall i :: 0 <= i < |entries| ==> entries[i].id !in EMPTY.byId && KeyOf(entries[i]) !in EMPTY.byKey;
      ReplaceLoads(EMPTY, entries);
    case RecordOne(connection, command, at) => RecordCounts(x, connection, command, at);
    case DeleteOne(connection, command) =>
      if command != "" {
        DeleteCommandForgets(x, connection, command);
      } else {
        DeletesNothing(x, connection);
      }
    case DeleteMany(ids) =>
      DeleteAllForgets(x, ids);
      ScopesByUsage(x, ids);
  }

  lemma DeletesNothing(x: Index, connection: string)
    ensures DeleteCommandFrom(x, connection, "") == x
  {}

  /** Whatever the sequence of changes: the two maps stay inverse, and the index means what the same changes make
      of a plain map from scopes to their usage. */
  lemma {:induction false} IndexRefinesMap(x: Index, changes: seq<Change>)
    requires Inverse(x) && forall i :: 0 <= i < |changes| ==> Proper(changes[i])
    ensures Inverse(ChangedAll(x, changes)) && View(ChangedAll(x, changes)) == MeantAll(View(x), changes)
    decreases |changes|
  {
    hide Inverse, View, Changed, Meant, Proper;
    if changes != [] {
      ChangeIsMeant(x, changes[0]);
      IndexRefinesMap(Changed(x, changes[0]), changes[1..]);
    }
  }
}
