/** Version vectors: one counter per device, a missing device counting as zero. */
module VersionVectors {

  type int64 = x: int | -0x8000_0000_0000_0000 <= x < 0x8000_0000_0000_0000

  const MAX_INT64: int64 := 0x7fff_ffff_ffff_ffff
  const MIN_INT64: int64 := -0x8000_0000_0000_0000

  type DeviceId = string

  type Vector = map<DeviceId, int64>

  datatype Relation = Equal | Before | After | Concurrent

  function Get(v: Vector, id: DeviceId): int64 { if id in v then v[id] else 0 }

  // ----- what the order means -----

  ghost predicate Leq(a: Vector, b: Vector) { forall id :: Get(a, id) <= Get(b, id) }

  ghost predicate Less(a: Vector, b: Vector) { Leq(a, b) && !Leq(b, a) }

  /** All counters are positive, as in every vector that the client builds itself. */
  ghost predicate Positive(v: Vector) { forall id :: id in v ==> v[id] > 0 }

  ghost function PointwiseRelation(a: Vector, b: Vector): Relation {
    if Leq(a, b) && Leq(b, a) then Equal else if Leq(a, b) then Before else if Leq(b, a) then After else Concurrent
  }

  // ----- comparing -----

  /** The entries that the comparison of `left` with `right` looks at. */
  ghost predicate FoundAbove(left: Vector, right: Vector) { exists id :: id in left && left[id] > Get(right, id) }

  ghost predicate FoundBelow(left: Vector, right: Vector) {
    || (exists id :: id in left && left[id] < Get(right, id))
    || (exists id :: id in right && id !in left && right[id] > 0)
  }

  ghost function Compare(left: Vector, right: Vector): Relation {
    if FoundAbove(left, right) then (if FoundBelow(left, right) then Concurrent else After)
    else if FoundBelow(left, right) then Before
    else Equal
  }

  method CompareVectors(left: Vector, right: Vector) returns (r: Relation)
    ensures r == Compare(left, right)
  {
    var leftGreater, rightGreater := false, false;
    var todo := left.Keys;
    while todo != {}
      invariant todo <= left.Keys
      invariant leftGreater ==> FoundAbove(left, right)
      invariant !leftGreater ==> forall id :: id in left && id !in todo ==> left[id] <= Get(right, id)
      invariant rightGreater ==> FoundBelow(left, right)
      invariant !rightGreater ==> forall id :: id in left && id !in todo ==> left[id] >= Get(right, id)
      decreases |todo|
    {
      var id :| id in todo;
      todo := todo - {id};
      if left[id] > Get(right, id) {
        leftGreater := true;
      } else if left[id] < Get(right, id) {
        rightGreater := true;
      }
    }
    todo := right.Keys;
    while todo != {}
      invariant todo <= right.Keys
      invariant rightGreater ==> FoundBelow(left, right)
      invariant !rightGreater ==> forall id :: id in left ==> left[id] >= Get(right, id)
      invariant !rightGreater ==> forall id :: id in right && id !in todo && id !in left ==> right[id] <= 0
      decreases |todo|
    {
      var id :| id in todo;
      todo := todo - {id};
      if id !in left && right[id] > 0 {
        rightGreater := true;
      }
    }
    if leftGreater && rightGreater {
      return Concurrent;
    }
    r := if leftGreater then After else if rightGreater then Before else Equal;
  }

  /** The comparison overlooks one thing: a negative counter of a device that only `right` knows. It is
      the pointwise order exactly when there is none, or something else already exceeds. */
  lemma CompareIsPointwise(left: Vector, right: Vector)
    ensures Compare(left, right) == PointwiseRelation(left, right) <==>
      FoundAbove(left, right) || forall id :: id in right && id !in left ==> right[id] >= 0
  {
    assert !Leq(right, left) <==> FoundBelow(left, right) by {
      if FoundBelow(left, right) {
        if id :| id in left && left[id] < Get(right, id) {
          assert Get(right, id) > Get(left, id);
        } else {
          var other :| other in right && other !in left && right[other] > 0;
          assert Get(right, other) > Get(left, other);
        }
      }
    }
    if FoundAbove(left, right) {
      var id :| id in left && left[id] > Get(right, id);
      assert Get(left, id) > Get(right, id);
    } else if id :| id in right && id !in left && right[id] < 0 {
      assert Get(left, id) > Get(right, id);
    } else {
      assert Leq(left, right);
    }
  }

  lemma NegativeEntryMisleads()
    ensures Compare(map[], map["a" := -1]) == Equal && PointwiseRelation(map[], map["a" := -1]) == After
  {
    var v: Vector := map["a" := -1];
    CompareIsPointwise(map[], v);
    assert Get(v, "a") < Get(map[], "a");
    assert v["a"] < 0;
  }

  lemma CompareExact(left: Vector, right: Vector)
    requires Positive(right)
    ensures Compare(left, right) == PointwiseRelation(left, right)
  {
    CompareIsPointwise(left, right);
  }

  lemma LeqTransitive(a: Vector, b: Vector, c: Vector)
    requires Leq(a, b) && Leq(b, c)
    ensures Leq(a, c)
  {
    forall id ensures Get(a, id) <= Get(c, id) {
      assert Get(a, id) <= Get(b, id) <= Get(c, id);
    }
  }

  /** Comparable both ways means equal, for vectors without idle entries. */
  lemma LeqAntisymmetric(a: Vector, b: Vector)
    requires Positive(a) && Positive(b) && Leq(a, b) && Leq(b, a)
    ensures a == b
  {
    forall id ensures id in a <==> id in b
      ensures id in a ==> a[id] == b[id]
    {
      assert Get(a, id) == Get(b, id);
    }
  }

  // ----- cloning and merging -----

  function Cloned(v: Vector): (c: Vector)
    ensures forall id :: id in c <==> id in v && v[id] > 0
    ensures forall id :: id in c ==> c[id] == v[id]
  {
    map id | id in v && v[id] > 0 :: v[id]
  }

  method CloneVector(source: Vector) returns (result: Vector)
    ensures result == Cloned(source)
  {
    result := map[];
    var todo := source.Keys;
    while todo != {}
      invariant todo <= source.Keys
      invariant forall id :: id in result <==> id in source.Keys - todo && source[id] > 0
      invariant forall id :: id in result ==> result[id] == source[id]
      decreases |todo|
    {
      var id :| id in todo;
      todo := todo - {id};
      if source[id] > 0 {
        result := result[id := source[id]];
      }
    }
  }

  function Max(a: int64, b: int64): int64 { if a < b then b else a }

  function Merged(left: Vector, right: Vector): (m: Vector)
    ensures forall id :: Get(m, id) == Max(0, Max(Get(left, id), Get(right, id)))
    ensures Positive(m)
  {
    map id | id in left.Keys + right.Keys && (Get(left, id) > 0 || Get(right, id) > 0) ::
      Max(Get(left, id), Get(right, id))
  }

  method MergeVectors(left: Vector, right: Vector) returns (result: Vector)
    ensures result == Merged(left, right)
  {
    result := CloneVector(left);
    var todo := right.Keys;
    while todo != {}
      invariant todo <= right.Keys
      invariant forall id :: id in todo ==> Get(result, id) == Max(0, Get(left, id))
      invariant forall id :: id !in todo ==> Get(result, id) == Max(0, Max(Get(left, id), Get(right, id)))
      invariant Positive(result)
      decreases |todo|
    {
      var id :| id in todo;
      todo := todo - {id};
      if right[id] > Get(result, id) {
        result := result[id := right[id]];
      }
    }
    SameCounters(result, Merged(left, right));
  }

  lemma SameCounters(a: Vector, b: Vector)
    requires Positive(a) && Positive(b) && forall id :: Get(a, id) == Get(b, id)
    ensures a == b
  {
    LeqAntisymmetric(a, b);
  }

  /** The merge is the least upper bound among the vectors without negative counters. */
  lemma MergeIsLeastUpperBound(left: Vector, right: Vector, bound: Vector)
    requires forall id :: Get(bound, id) >= 0
    ensures Leq(left, Merged(left, right)) && Leq(right, Merged(left, right))
    ensures Leq(left, bound) && Leq(right, bound) <==> Leq(Merged(left, right), bound)
  {
    var m := Merged(left, right);
    assert forall id :: Get(left, id) <= Get(m, id) && Get(right, id) <= Get(m, id);
    if Leq(m, bound) {
      LeqTransitive(left, m, bound);
      LeqTransitive(right, m, bound);
    }
    if Leq(left, bound) && Leq(right, bound) {
      forall id ensures Get(m, id) <= Get(bound, id) {
        assert Get(left, id) <= Get(bound, id) && Get(right, id) <= Get(bound, id);
      }
    }
  }

  lemma MergeCommutes(a: Vector, b: Vector)
    ensures Merged(a, b) == Merged(b, a)
  {
    SameCounters(Merged(a, b), Merged(b, a));
  }

  lemma MergeAssociates(a: Vector, b: Vector, c: Vector)
    ensures Merged(Merged(a, b), c) == Merged(a, Merged(b, c))
  {
    SameCounters(Merged(Merged(a, b), c), Merged(a, Merged(b, c)));
  }

  // ----- incrementing -----

  /** Adding one in 64 bits. */
  function Successor(n: int64): int64 { if n == MAX_INT64 then MIN_INT64 else n + 1 }

  function Seeded(previous: Vector, device: DeviceId, legacyVersion: int64): Vector {
    if Cloned(previous) == map[] && legacyVersion > 0 then map[device := legacyVersion] else Cloned(previous)
  }

  function Incremented(previous: Vector, device: DeviceId, legacyVersion: int64): Vector {
    var v := Seeded(previous, device, legacyVersion);
    v[device := Successor(Get(v, device))]
  }

  method IncrementVector(previous: Vector, device: DeviceId, legacyVersion: int64) returns (vector: Vector)
    ensures vector == Incremented(previous, device, legacyVersion)
  {
    vector := CloneVector(previous);
    if |vector| == 0 && legacyVersion > 0 {
      vector := vector[device := legacyVersion];
    }
    vector := vector[device := Successor(Get(vector, device))];
  }

  /** The new vector is strictly above the old one exactly when the device's counter does not wrap
      around; nothing but that counter moves. */
  lemma IncrementDominates(previous: Vector, device: DeviceId, legacyVersion: int64)
    requires Get(previous, device) >= 0
    ensures Less(previous, Incremented(previous, device, legacyVersion)) <==>
      Get(Seeded(previous, device, legacyVersion), device) < MAX_INT64
    ensures forall id :: id != device ==> Get(Incremented(previous, device, legacyVersion), id) == Max(0, Get(previous, id))
  {
    var v, next := Seeded(previous, device, legacyVersion), Incremented(previous, device, legacyVersion);
    SeededCounters(previous, device, legacyVersion);
    if Get(v, device) < MAX_INT64 {
      assert Get(next, device) > Get(previous, device);
      forall id ensures Get(previous, id) <= Get(next, id) {}
    } else {
      assert Get(next, device) < Get(previous, device);
    }
  }

  /** The device's counter goes up by one; a record that has no vector yet goes on from its version. */
  lemma NextCounter(previous: Vector, device: DeviceId, legacyVersion: int64)
    requires Positive(previous) && Get(previous, device) < MAX_INT64 && legacyVersion < MAX_INT64
    ensures Incremented(previous, device, legacyVersion) ==
      if previous == map[] && legacyVersion > 0 then map[device := legacyVersion + 1]
      else previous[device := Get(previous, device) + 1]
  {
    assert Cloned(previous) == previous;
  }

  lemma IncrementStaysPositive(previous: Vector, device: DeviceId, legacyVersion: int64)
    requires Get(Seeded(previous, device, legacyVersion), device) < MAX_INT64
    ensures Positive(Incremented(previous, device, legacyVersion))
  {
    SeededCounters(previous, device, legacyVersion);
  }

  lemma SeededCounters(previous: Vector, device: DeviceId, legacyVersion: int64)
    ensures var v := Seeded(previous, device, legacyVersion);
      && Positive(v)
      && Get(v, device) >= Get(previous, device) && Get(v, device) >= 0
      && forall id :: id != device ==> Get(v, id) == Max(0, Get(previous, id))
  {
    var c := Cloned(previous);
    forall id ensures Get(c, id) == Max(0, Get(previous, id)) {}
    if c == map[] && legacyVersion > 0 {
      forall id ensures Get(previous, id) <= 0 {
        assert id !in c;
      }
    }
  }

  // ----- the version number -----

  ghost predicate IsMaxAmong(v: Vector, ids: set<DeviceId>, m: int64)
    requires ids <= v.Keys
  {
    && m >= 0
    && (forall id :: id in ids ==> v[id] <= m)
    && (m == 0 || exists id :: id in ids && v[id] == m)
  }

  ghost predicate IsMaxCounter(v: Vector, m: int64) { IsMaxAmong(v, v.Keys, m) }

  /** The largest counter, at least zero. */
  method MaxVector(v: Vector) returns (maximum: int64)
    ensures maximum == MaxCounter(v)
  {
    maximum := 0;
    var todo := v.Keys;
    while todo != {}
      invariant todo <= v.Keys && maximum >= 0
      invariant forall id :: id in v && id !in todo ==> v[id] <= maximum
      invariant maximum == 0 || exists id :: id in v && v[id] == maximum
      decreases |todo|
    {
      var id :| id in todo;
      todo := todo - {id};
      if v[id] > maximum {
        maximum := v[id];
      }
    }
    assert IsMaxCounter(v, maximum);
  }

  lemma {:induction false} MaxExists(v: Vector, ids: set<DeviceId>)
    requires ids <= v.Keys
    ensures exists m: int64 :: IsMaxAmong(v, ids, m)
    decreases |ids|
  {
    if ids == {} {
      assert IsMaxAmong(v, ids, 0);
    } else {
      var id :| id in ids;
      MaxExists(v, ids - {id});
      var m: int64 :| IsMaxAmong(v, ids - {id}, m);
      assert IsMaxAmong(v, ids, if v[id] > m then v[id] else m);
    }
  }

  /** The largest counter, by the definition above. */
  ghost function MaxCounter(v: Vector): (m: int64)
    ensures IsMaxCounter(v, m)
    ensures forall n: int64 :: IsMaxCounter(v, n) ==> n == m
  {
    MaxExists(v, v.Keys);
    var m: int64 :| IsMaxAmong(v, v.Keys, m);
    m
  }
}
