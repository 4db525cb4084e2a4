/** Suggestions: for each command its best entry, the best commands first. */
module HistorySuggest {
  import opened HistoryIndex

  // ----- candidates -----

  predicate StartsWith(s: string, prefix: string) { prefix <= s }

  predicate IsMatch(x: Index, connection: string, prefix: string, fold: string -> string, id: string) {
    && id in x.byId
    && (x.byId[id].connection == connection || x.byId[id].connection == "")
    && StartsWith(fold(x.byId[id].command), prefix)
  }

  /** The candidate replaces the existing entry of the same command. */
  predicate Better(candidate: Entry, existing: Entry, connection: string) {
    if candidate.useCount != existing.useCount then candidate.useCount > existing.useCount
    else if candidate.lastUsedAt == existing.lastUsedAt then candidate.connection == connection && existing.connection == ""
    else candidate.lastUsedAt > existing.lastUsedAt
  }

  /** How the result is sorted: more uses first, then the later use. */
  predicate Before(left: Entry, right: Entry) {
    left.useCount > right.useCount || (left.useCount == right.useCount && left.lastUsedAt > right.lastUsedAt)
  }

  predicate Sorted(entries: seq<Entry>) { forall i, j :: 0 <= i < j < |entries| ==> !Before(entries[j], entries[i]) }

  predicate Distinct(entries: seq<Entry>) {
    forall i, j :: 0 <= i < j < |entries| ==> entries[i].command != entries[j].command
  }

  /** `best` holds, for each command with a match among the visited entries, a match that none of them beats. */
  ghost predicate IsBest(x: Index, connection: string, prefix: string, fold: string -> string,
                         visited: set<string>, best: map<string, Entry>) {
    && (forall command :: command in best ==>
          && best[command].command == command && best[command].id in visited
          && IsMatch(x, connection, prefix, fold, best[command].id) && x.byId[best[command].id] == best[command])
    && (forall id :: id in visited && IsMatch(x, connection, prefix, fold, id) ==>
          && x.byId[id].command in best
          && (best[x.byId[id].command] == x.byId[id] || Better(best[x.byId[id].command], x.byId[id], connection)))
  }

  // ----- the loop -----

  method Collect(x: Index, connection: string, prefix: string, fold: string -> string) returns (best: map<string, Entry>)
    requires Inverse(x)
    ensures IsBest(x, connection, prefix, fold, x.byId.Keys, best)
  {
    hide HistoryKey, ProperId, IsBest;
    best := map[];
    var ids := x.byId.Keys;
    NothingVisited(x, connection, prefix, fold, x.byId.Keys - ids);
    while ids != {}
      invariant ids <= x.byId.Keys
      invariant IsBest(x, connection, prefix, fold, x.byId.Keys - ids, best)
      decreases |ids|
    {
      var id :| id in ids;
      var entry := x.byId[id];
      ghost var visited := x.byId.Keys - ids;
      if (entry.connection == connection || entry.connection == "") && StartsWith(fold(entry.command), prefix) {
        VisitKeepsBest(x, connection, prefix, fold, visited, best, id);
        if entry.command !in best || Better(entry, best[entry.command], connection) {
          best := best[entry.command := entry];
        }
      } else {
        SkipKeepsBest(x, connection, prefix, fold, visited, best, id);
      }
      ids := ids - {id};
      assert x.byId.Keys - ids == visited + {id};
    }
    assert x.byId.Keys - ids == x.byId.Keys;
  }

  lemma NothingVisited(x: Index, connection: string, prefix: string, fold: string -> string, visited: set<string>)
    requires visited == {}
    ensures IsBest(x, connection, prefix, fold, visited, map[])
  {}

  lemma SkipKeepsBest(x: Index, connection: string, prefix: string, fold: string -> string,
                      visited: set<string>, best: map<string, Entry>, id: string)
    requires IsBest(x, connection, prefix, fold, visited, best) && !IsMatch(x, connection, prefix, fold, id)
    ensures IsBest(x, connection, prefix, fold, visited + {id}, best)
  {}

  /** Of the at most two matches of a command one is better, whichever is visited first. */
  lemma VisitKeepsBest(x: Index, connection: string, prefix: string, fold: string -> string,
                       visited: set<string>, best: map<string, Entry>, id: string)
    requires Inverse(x) && IsBest(x, connection, prefix, fold, visited, best) && id !in visited
    requires IsMatch(x, connection, prefix, fold, id)
    ensures var e := x.byId[id];
      IsBest(x, connection, prefix, fold, visited + {id},
             if e.command !in best || Better(e, best[e.command], connection) then best[e.command := e] else best)
  {
    hide HistoryKey, ProperId;
    var e := x.byId[id];
    assert e.id == id;
    if e.command in best {
      var b := best[e.command];
      DifferentScopes(x, b, e);
      forall other | other in visited && IsMatch(x, connection, prefix, fold, other) && x.byId[other].command == e.command
        ensures other == b.id
      {
        DifferentScopes(x, x.byId[other], e);
        DifferentScopes(x, x.byId[other], b);
      }
    }
  }

  lemma DifferentScopes(x: Index, a: Entry, b: Entry)
    requires Inverse(x) && a.id in x.byId && x.byId[a.id] == a && b.id in x.byId && x.byId[b.id] == b
    ensures a.id != b.id && a.command == b.command ==> a.connection != b.connection
  {
    hide HistoryKey;
  }

  /** The best entries do not depend on the order in which the matches were visited. */
  lemma BestIsUnique(x: Index, connection: string, prefix: string, fold: string -> string,
                     one: map<string, Entry>, two: map<string, Entry>)
    requires Inverse(x)
    requires IsBest(x, connection, prefix, fold, x.byId.Keys, one)
    requires IsBest(x, connection, prefix, fold, x.byId.Keys, two)
    ensures one == two
  {
    forall command
      ensures command in one ==> command in two
      ensures command in two ==> command in one
      ensures command in one && command in two ==> one[command] == two[command]
    {
      if command in one && command in two {
        DifferentScopes(x, one[command], two[command]);
      }
    }
  }

  // ----- the ranking -----

  function Insert(e: Entry, sorted: seq<Entry>): seq<Entry>
    decreases |sorted|
  {
    if sorted == [] || Before(e, sorted[0]) then [e] + sorted else [sorted[0]] + Insert(e, sorted[1..])
  }

  lemma {:induction false} InsertElements(e: Entry, s: seq<Entry>)
    ensures |Insert(e, s)| == |s| + 1
    ensures forall y :: y in Insert(e, s) <==> y == e || y in s
    decreases |s|
  {
    if s != [] {
      InsertElements(e, s[1..]);
      assert s == [s[0]] + s[1..];
    }
  }

  lemma {:induction false} InsertSorts(e: Entry, s: seq<Entry>)
    requires Sorted(s)
    ensures Sorted(Insert(e, s))
    decreases |s|
  {
    if s != [] && !Before(e, s[0]) {
      InsertSorts(e, s[1..]);
      InsertElements(e, s[1..]);
      var rest := Insert(e, s[1..]);
      forall y | y in rest ensures !Before(y, s[0]) {
        if y in s[1..] {
          var i :| 0 <= i < |s[1..]| && s[1..][i] == y;
          assert s[i + 1] == y;
        }
      }
    }
  }

  lemma {:induction false} InsertKeepsDistinct(e: Entry, s: seq<Entry>)
    requires Distinct(s) && forall y :: y in s ==> y.command != e.command
    ensures Distinct(Insert(e, s))
    decreases |s|
  {
    if s != [] && !Before(e, s[0]) {
      InsertKeepsDistinct(e, s[1..]);
      InsertElements(e, s[1..]);
      var rest := Insert(e, s[1..]);
      forall y | y in rest ensures y.command != s[0].command {
        if y in s[1..] {
          var i :| 0 <= i < |s[1..]| && s[1..][i] == y;
          assert s[i + 1] == y;
        } else {
          assert s[0] in s;
        }
      }
    }
  }

  /** Every best entry once, ranked. */
  method Rank(best: map<string, Entry>) returns (ranked: seq<Entry>)
    requires forall command :: command in best ==> best[command].command == command
    ensures Sorted(ranked) && Distinct(ranked) && |ranked| == |best|
    ensures forall e :: e in ranked <==> e.command in best && best[e.command] == e
  {
    ranked := [];
    var commands := best.Keys;
    while commands != {}
      invariant commands <= best.Keys
      invariant Sorted(ranked) && Distinct(ranked) && |ranked| + |commands| == |best|
      invariant forall e :: e in ranked <==> e.command in best && e.command !in commands && best[e.command] == e
      decreases |commands|
    {
      var command :| command in commands;
      commands := commands - {command};
      InsertElements(best[command], ranked);
      InsertSorts(best[command], ranked);
      InsertKeepsDistinct(best[command], ranked);
      ranked := Insert(best[command], ranked);
    }
  }

  function EffectiveLimit(limit: int): (n: nat)
    ensures 1 <= n <= MAX_LIMIT
  {
    if limit < 1 || limit > MAX_LIMIT then DEFAULT_LIMIT else limit
  }

  /** The first `limit` commands by rank, each with its best entry. */
  ghost predicate IsTop(best: map<string, Entry>, limit: int, result: seq<Entry>) {
    && Sorted(result) && Distinct(result)
    && |result| == (if |best| < EffectiveLimit(limit) then |best| else EffectiveLimit(limit))
    && (forall e :: e in result ==> e.command in best && best[e.command] == e)
    && (forall command, e :: command in best && best[command] !in result && e in result ==> !Before(best[command], e))
  }

  ghost predicate IsSuggestion(x: Index, connection: string, prefix: string, fold: string -> string,
                               limit: int, result: seq<Entry>) {
    exists best :: IsBest(x, connection, prefix, fold, x.byId.Keys, best) && IsTop(best, limit, result)
  }

  lemma TopOfRanking(best: map<string, Entry>, ranked: seq<Entry>, limit: int)
    requires Sorted(ranked) && Distinct(ranked) && |ranked| == |best|
    requires forall e :: e in ranked <==> e.command in best && best[e.command] == e
    requires forall command :: command in best ==> best[command].command == command
    ensures IsTop(best, limit, if |ranked| > EffectiveLimit(limit) then ranked[..EffectiveLimit(limit)] else ranked)
  {
    hide EffectiveLimit;
    var result := if |ranked| > EffectiveLimit(limit) then ranked[..EffectiveLimit(limit)] else ranked;
    forall k | 0 <= k < |result| ensures ranked[k] in result {
      assert result[k] == ranked[k];
    }
    forall command, e | command in best && best[command] !in result && e in result
      ensures !Before(best[command], e)
    {
      assert best[command] in ranked;
      var j :| 0 <= j < |ranked| && ranked[j] == best[command];
      var i :| 0 <= i < |result| && result[i] == e;
      assert j >= |result| && ranked[i] == e;
    }
  }

  method Suggest(index: CommandHistoryIndex, connection: string, prefix: string, limit: int) returns (result: seq<Entry>)
    requires Inverse(index.Model())
    ensures IsSuggestion(index.Model(), connection, index.fold(index.trim(prefix)), index.fold, limit, result)
  {
    hide Inverse, IsBest, IsTop, EffectiveLimit;
    var x := Index(index.byId, index.byKey);
    var normalized := index.fold(index.trim(prefix));
    var best := Collect(x, connection, normalized, index.fold);
    BestByCommand(x, connection, normalized, index.fold, best);
    var ranked := Rank(best);
    TopOfRanking(best, ranked, limit);
    var n := EffectiveLimit(limit);
    result := if |ranked| > n then ranked[..n] else ranked;
  }

  lemma BestByCommand(x: Index, connection: string, prefix: string, fold: string -> string, best: map<string, Entry>)
    requires IsBest(x, connection, prefix, fold, x.byId.Keys, best)
    ensures forall command :: command in best ==> best[command].command == command
  {}

  /** What a suggestion tells its reader: every match is represented by an entry of the same command that is
      as good or better, or the list is full of commands that rank no lower. */
  lemma SuggestionCoversMatches(x: Index, connection: string, prefix: string, fold: string -> string, limit: int,
                                result: seq<Entry>, id: string)
    requires IsSuggestion(x, connection, prefix, fold, limit, result) && IsMatch(x, connection, prefix, fold, id)
    ensures (exists e :: e in result && e.command == x.byId[id].command && (e == x.byId[id] || Better(e, x.byId[id], connection)))
      || (|result| == EffectiveLimit(limit) && forall e :: e in result ==> !Before(x.byId[id], e))
  {
    hide EffectiveLimit, Better;
    var best :| IsBest(x, connection, prefix, fold, x.byId.Keys, best) && IsTop(best, limit, result);
    var b := best[x.byId[id].command];
    BestByCommand(x, connection, prefix, fold, best);
    if |result| == |best| {
      FullLists(best, result, b);
    } else if b !in result {
      forall e | e in result ensures !Before(x.byId[id], e) {
        NotBefore(x.byId[id], b, e, connection);
      }
    }
  }

  /** The rank of an entry: how often it was used, then how lately. */
  predicate RanksFirst(a: Entry, b: Entry) {
    a.useCount > b.useCount || (a.useCount == b.useCount && a.lastUsedAt >= b.lastUsedAt)
  }

  /** In plain terms: the list holds at most as many entries as asked for, or 20 for want of a sensible number; each is
      one of the connection's own or one that counts for all, and begins with the prefix; no command is listed twice;
      and they come by the number of uses, then by the last use. */
  lemma SuggestionIsRanked(x: Index, connection: string, prefix: string, fold: string -> string, limit: int,
                           result: seq<Entry>)
    requires IsSuggestion(x, connection, prefix, fold, limit, result)
    ensures |result| <= if 1 <= limit <= 100 then limit else 20
    ensures forall e :: e in result ==>
      && e.id in x.byId && x.byId[e.id] == e && (e.connection == connection || e.connection == "")
      && prefix <= fold(e.command)
    ensures forall i, j :: 0 <= i < j < |result| ==>
      result[i].command != result[j].command && RanksFirst(result[i], result[j])
  {
    var best :| IsBest(x, connection, prefix, fold, x.byId.Keys, best) && IsTop(best, limit, result);
    forall e | e in result
      ensures e.id in x.byId && x.byId[e.id] == e && (e.connection == connection || e.connection == "")
      ensures prefix <= fold(e.command)
    {
      assert best[e.command] == e && IsMatch(x, connection, prefix, fold, e.id);
    }
  }

  /** Each is the best entry of its command; among equals the connection's own one is. */
  lemma SuggestionIsBest(x: Index, connection: string, prefix: string, fold: string -> string, limit: int,
                         result: seq<Entry>, e: Entry, id: string)
    requires IsSuggestion(x, connection, prefix, fold, limit, result) && e in result
    requires id in x.byId && x.byId[id].command == e.command
    requires x.byId[id].connection == connection || x.byId[id].connection == ""
    ensures RanksFirst(e, x.byId[id])
    ensures RanksFirst(x.byId[id], e) ==> e == x.byId[id] || e.connection == connection
  {
    hide Sorted, Distinct, EffectiveLimit, Before;
    var best :| IsBest(x, connection, prefix, fold, x.byId.Keys, best) && IsTop(best, limit, result);
    assert best[e.command] == e && IsMatch(x, connection, prefix, fold, e.id);
    assert IsMatch(x, connection, prefix, fold, id);
  }

  /** Nothing that matches is missed without need: its command is listed, or the list is full of commands that come
      before it. */
  lemma SuggestionMissesNothing(x: Index, connection: string, prefix: string, fold: string -> string, limit: int,
                                result: seq<Entry>, id: string)
    requires IsSuggestion(x, connection, prefix, fold, limit, result) && id in x.byId
    requires x.byId[id].connection == connection || x.byId[id].connection == ""
    requires prefix <= fold(x.byId[id].command)
    ensures (exists e :: e in result && e.command == x.byId[id].command)
      || (|result| == (if 1 <= limit <= 100 then limit else 20) && forall e :: e in result ==> RanksFirst(e, x.byId[id]))
  {
    hide IsSuggestion;
    SuggestionCoversMatches(x, connection, prefix, fold, limit, result, id);
    if forall e :: e in result ==> e.command != x.byId[id].command {
      forall e | e in result ensures RanksFirst(e, x.byId[id]) {
        assert !Before(x.byId[id], e);
      }
    }
  }

  /** Whatever a better entry does not outrank, the worse one does not either. */
  lemma NotBefore(worse: Entry, better: Entry, e: Entry, connection: string)
    requires (worse == better || Better(better, worse, connection)) && !Before(better, e)
    ensures !Before(worse, e)
  {}

  /** A list of distinct best entries that is as long as the map misses none. */
  lemma FullLists(best: map<string, Entry>, result: seq<Entry>, b: Entry)
    requires Distinct(result) && |result| == |best| && b.command in best && best[b.command] == b
    requires forall e :: e in result ==> e.command in best && best[e.command] == e
    ensures b in result
  {
    var commands := set i | 0 <= i < |result| :: result[i].command;
    CountCommands(result);
    assert commands <= best.Keys;
    if b.command !in commands {
      StrictSubset(commands, best.Keys, b.command);
    }
    var i :| 0 <= i < |result| && result[i].command == b.command;
    assert result[i] in result;
  }

  lemma StrictSubset(a: set<string>, b: set<string>, c: string)
    requires a <= b && c in b && c !in a
    ensures |a| < |b|
  {
    assert a <= b - {c};
    Subset(a, b - {c});
  }

  lemma {:induction false} Subset(a: set<string>, b: set<string>)
    requires a <= b
    ensures |a| <= |b|
    decreases |a|
  {
    if a != {} {
      var c :| c in a;
      Subset(a - {c}, b - {c});
    }
  }

  lemma {:induction false} CountCommands(result: seq<Entry>)
    requires Distinct(result)
    ensures |set i | 0 <= i < |result| :: result[i].command| == |result|
    decreases |result|
  {
    var all := set i | 0 <= i < |result| :: result[i].command;
    if result != [] {
      var n := |result| - 1;
      var front := result[..n];
      CountCommands(front);
      var some := set i | 0 <= i < |front| :: front[i].command;
      CommandsSnoc(front, result[n]);
      assert front + [result[n]] == result;
      assert result[n].command !in some;
    }
  }

  lemma CommandsSnoc(front: seq<Entry>, e: Entry)
    ensures (set i | 0 <= i < |front + [e]| :: (front + [e])[i].command) ==
      (set i | 0 <= i < |front| :: front[i].command) + {e.command}
  {
    var result := front + [e];
    var all, some := set i | 0 <= i < |result| :: result[i].command, set i | 0 <= i < |front| :: front[i].command;
    forall c ensures c in all <==> c in some + {e.command} {
      if c in all {
        var i :| 0 <= i < |result| && result[i].command == c;
        assert i < |front| ==> front[i].command == c;
      }
      if c in some {
        var i :| 0 <= i < |front| && front[i].command == c;
        assert result[i].command == c;
      }
      assert result[|front|].command == e.command;
    }
  }
}
