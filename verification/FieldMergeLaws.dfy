/** What merging documents field by field guarantees, and where it stops being associative. */
module FieldMergeLaws {
  import opened Options
  import opened VersionVectors
  import opened FieldMerge

  // ----- what documents look like -----

  /** A value is present exactly with a clock that carries its hash. */
  ghost predicate LiveCell(c: Cell) {
    && (c.value.Some? <==> c.clock.Some? && c.clock.value.hash.Some?)
    && (c.value.Some? ==> c.clock.value.hash.value == Sha256(c.value.value))
    && (c.clock.Some? ==> Positive(c.clock.value.vector))
  }

  ghost predicate Live(d: Document) { forall name :: LiveCell(CellOf(d, name)) }

  /** Writes of one writer that are not strictly ordered are the same write. */
  ghost predicate CompatibleCells(a: Cell, b: Cell) {
    a.clock.Some? && b.clock.Some? ==>
      var x, y := a.clock.value, b.clock.value;
      x.writer == y.writer && !Less(x.vector, y.vector) && !Less(y.vector, x.vector) ==> a == b
  }

  ghost predicate Compatible(a: Document, b: Document) {
    forall name :: CompatibleCells(CellOf(a, name), CellOf(b, name))
  }

  // ----- who wins -----

  /** For clocks without idle counters, winning is decided by the pointwise order, then by the name. */
  lemma BeatsMeans(x: FieldState, y: FieldState)
    requires Positive(x.vector) && Positive(y.vector)
    ensures Beats(x, y) <==>
      Less(y.vector, x.vector) || (!Less(x.vector, y.vector) && Precedes(y.writer, x.writer))
  {
    CompareExact(y.vector, x.vector);
  }

  /** Of two compatible writes that differ exactly one wins. */
  lemma OneWins(a: Cell, b: Cell)
    requires LiveCell(a) && LiveCell(b) && a.clock.Some? && b.clock.Some?
    ensures !(Beats(a.clock.value, b.clock.value) && Beats(b.clock.value, a.clock.value))
    ensures CompatibleCells(a, b) && a != b ==>
      Beats(a.clock.value, b.clock.value) || Beats(b.clock.value, a.clock.value)
    ensures !CompatibleCells(a, b) ==>
      !Beats(a.clock.value, b.clock.value) && !Beats(b.clock.value, a.clock.value)
  {
    BeatsMeans(a.clock.value, b.clock.value);
    BeatsMeans(b.clock.value, a.clock.value);
    PrecedesIsTotal(a.clock.value.writer, b.clock.value.writer);
  }

  lemma KeptLive(c: Cell)
    requires LiveCell(c)
    ensures Kept(c) == c
  {}

  lemma MergeKeepsLive(a: Document, b: Document)
    requires Live(a) && Live(b)
    ensures Live(Merge(a, b))
  {
    forall name ensures LiveCell(CellOf(Merge(a, b), name)) {
      assert LiveCell(CellOf(a, name)) && LiveCell(CellOf(b, name));
    }
  }

  // ----- idempotent, commutative -----

  lemma MergeIsIdempotent(d: Document)
    ensures Merge(d, d) == d <==>
      forall name :: name in d.members ==> name in d.fields && d.fields[name].hash.Some?
  {
    var m := Merge(d, d);
    forall name ensures CellOf(m, name) == Kept(CellOf(d, name)) {}
    if forall name :: name in d.members ==> name in d.fields && d.fields[name].hash.Some? {
      SameCells(m, d);
    } else {
      var name :| name in d.members && !(name in d.fields && d.fields[name].hash.Some?);
      assert CellOf(m, name) != CellOf(d, name);
    }
  }

  lemma CellsCommute(a: Cell, b: Cell)
    requires LiveCell(a) && LiveCell(b)
    ensures MergeCell(a, b) == MergeCell(b, a) <==> CompatibleCells(a, b)
  {
    if a.clock.Some? && b.clock.Some? {
      OneWins(a, b);
    }
  }

  /** The order of the two sides does not matter, exactly when no field has two different writes by
      one writer that the clocks cannot order. */
  lemma MergeCommutes(a: Document, b: Document)
    requires Live(a) && Live(b)
    ensures Merge(a, b) == Merge(b, a) <==> Compatible(a, b)
  {
    hide MergeCell, CellOf, LiveCell, CompatibleCells, Merge;
    forall name
      ensures CellOf(Merge(a, b), name) == CellOf(Merge(b, a), name) <==> CompatibleCells(CellOf(a, name), CellOf(b, name))
    {
      CellsCommute(CellOf(a, name), CellOf(b, name));
    }
    if Compatible(a, b) {
      SameCells(Merge(a, b), Merge(b, a));
    }
  }

  // ----- ties -----

  lemma TieByName(a: Document, b: Document, name: string)
    requires Live(a) && Live(b) && name in a.fields && name in b.fields
    requires !Less(a.fields[name].vector, b.fields[name].vector) && !Less(b.fields[name].vector, a.fields[name].vector)
    requires Precedes(a.fields[name].writer, b.fields[name].writer)
    ensures CellOf(Merge(a, b), name) == CellOf(b, name) == CellOf(Merge(b, a), name)
  {
    var x, y := CellOf(a, name), CellOf(b, name);
    assert LiveCell(x) && LiveCell(y);
    BeatsMeans(x.clock.value, y.clock.value);
    BeatsMeans(y.clock.value, x.clock.value);
    PrecedesIsTotal(a.fields[name].writer, b.fields[name].writer);
  }

  /** Of two writes that the clocks do not order, the one survives whose writer has the greater character where the
      names first differ, on whichever side it is. */
  lemma TieGoesToGreaterName(a: Document, b: Document, name: string, p: string, x: char, s: string, y: char, t: string)
    requires Live(a) && Live(b) && name in a.fields && name in b.fields
    requires !Less(a.fields[name].vector, b.fields[name].vector) && !Less(b.fields[name].vector, a.fields[name].vector)
    requires a.fields[name].writer == p + [x] + s && b.fields[name].writer == p + [y] + t && x < y
    ensures CellOf(Merge(a, b), name) == CellOf(b, name) == CellOf(Merge(b, a), name)
  {
    FirstDifferenceDecides(p, x, s, y, t);
    TieByName(a, b, name);
  }

  /** If one writer's name is the beginning of the other's, the longer one survives. */
  lemma TieGoesToLongerName(a: Document, b: Document, name: string, s: string)
    requires Live(a) && Live(b) && name in a.fields && name in b.fields
    requires !Less(a.fields[name].vector, b.fields[name].vector) && !Less(b.fields[name].vector, a.fields[name].vector)
    requires b.fields[name].writer == a.fields[name].writer + s && s != []
    ensures CellOf(Merge(a, b), name) == CellOf(b, name) == CellOf(Merge(b, a), name)
  {
    PrefixPrecedes(a.fields[name].writer, s);
    TieByName(a, b, name);
  }

  // ----- no write is lost to an older one -----

  /** The surviving clock is one of the two, and neither of them is later. */
  lemma NeverKeepsDominated(a: Document, b: Document, name: string)
    requires Live(a) && Live(b)
    ensures var m := CellOf(Merge(a, b), name);
      && (m == CellOf(a, name) || m == CellOf(b, name))
      && (m.clock.None? <==> CellOf(a, name).clock.None? && CellOf(b, name).clock.None?)
      && (m.clock.Some? && name in a.fields ==> !Less(m.clock.value.vector, a.fields[name].vector))
      && (m.clock.Some? && name in b.fields ==> !Less(m.clock.value.vector, b.fields[name].vector))
  {
    var x, y := CellOf(a, name), CellOf(b, name);
    assert LiveCell(x) && LiveCell(y);
    if x.clock.Some? && y.clock.Some? {
      BeatsMeans(y.clock.value, x.clock.value);
    }
  }

  /** A field deleted by a write later than the other side's stays deleted. */
  lemma NeverRevivesDeleted(a: Document, b: Document, name: string)
    requires Live(a) && Live(b)
    requires name in a.fields && a.fields[name].hash.None?
    requires name in b.fields ==> Less(b.fields[name].vector, a.fields[name].vector)
    ensures name !in Merge(a, b).members && name !in Merge(b, a).members
  {
    var x, y := CellOf(a, name), CellOf(b, name);
    assert LiveCell(x) && LiveCell(y);
    if y.clock.Some? {
      BeatsMeans(y.clock.value, x.clock.value);
      BeatsMeans(x.clock.value, y.clock.value);
    }
    assert CellOf(Merge(a, b), name).value.None?;
    assert CellOf(Merge(b, a), name).value.None?;
  }

  /** `c` is what a later edit made of `base`. */
  ghost predicate EditOf(base: Cell, c: Cell) {
    c == base ||
    (c.clock.Some? && (base.clock.Some? ==> Less(base.clock.value.vector, c.clock.value.vector)))
  }

  /** Edits that two sides made to different fields of a common base, both with the clocks of their edit, are all
      kept. */
  lemma KeepsIndependentEdits(base: Document, a: Document, b: Document, name: string)
    requires Live(base) && Live(a) && Live(b)
    requires EditOf(CellOf(base, name), CellOf(a, name)) && EditOf(CellOf(base, name), CellOf(b, name))
    requires CellOf(a, name) == CellOf(base, name) || CellOf(b, name) == CellOf(base, name)
    ensures CellOf(Merge(a, b), name) ==
      if CellOf(a, name) == CellOf(base, name) then CellOf(b, name) else CellOf(a, name)
  {
    var x, y := CellOf(a, name), CellOf(b, name);
    assert LiveCell(CellOf(base, name)) && LiveCell(x) && LiveCell(y);
    if x.clock.Some? && y.clock.Some? {
      BeatsMeans(y.clock.value, x.clock.value);
      PrecedesIsTotal(x.clock.value.writer, y.clock.value.writer);
    }
  }

  // ----- three writers -----

  ghost predicate CellBeats(a: Cell, b: Cell) { a.clock.Some? && b.clock.Some? && Beats(a.clock.value, b.clock.value) }

  ghost predicate Cycle(a: Cell, b: Cell, c: Cell) {
    || (CellBeats(b, a) && CellBeats(c, b) && CellBeats(a, c))
    || (CellBeats(a, b) && CellBeats(b, c) && CellBeats(c, a))
  }

  ghost predicate PairwiseCompatible(a: Cell, b: Cell, c: Cell) {
    CompatibleCells(a, b) && CompatibleCells(b, c) && CompatibleCells(a, c)
  }

  lemma CellsAssociate(a: Cell, b: Cell, c: Cell)
    requires LiveCell(a) && LiveCell(b) && LiveCell(c) && PairwiseCompatible(a, b, c)
    ensures MergeCell(MergeCell(a, b), c) == MergeCell(a, MergeCell(b, c)) <==> !Cycle(a, b, c)
  {
    hide Beats, CompatibleCells;
    KeptLive(a);
    KeptLive(b);
    KeptLive(c);
    if a.clock.Some? && b.clock.Some? {
      OneWins(a, b);
    }
    if b.clock.Some? && c.clock.Some? {
      OneWins(b, c);
    }
    if a.clock.Some? && c.clock.Some? {
      OneWins(a, c);
    }
  }

  /** Merging three documents does not depend on how they are grouped, exactly when in no field the
      three writes beat each other in a circle. */
  lemma MergeAssociates(a: Document, b: Document, c: Document)
    requires Live(a) && Live(b) && Live(c)
    requires Compatible(a, b) && Compatible(b, c) && Compatible(a, c)
    ensures Merge(Merge(a, b), c) == Merge(a, Merge(b, c)) <==>
      forall name :: !Cycle(CellOf(a, name), CellOf(b, name), CellOf(c, name))
  {
    hide MergeCell, CellOf, LiveCell, CompatibleCells, Merge, Cycle;
    var left, right := Merge(Merge(a, b), c), Merge(a, Merge(b, c));
    forall name
      ensures CellOf(left, name) == CellOf(right, name) <==> !Cycle(CellOf(a, name), CellOf(b, name), CellOf(c, name))
    {
      CellsAssociate(CellOf(a, name), CellOf(b, name), CellOf(c, name));
      assert CellOf(Merge(a, b), name) == MergeCell(CellOf(a, name), CellOf(b, name));
      assert CellOf(Merge(b, c), name) == MergeCell(CellOf(b, name), CellOf(c, name));
    }
    if forall name :: !Cycle(CellOf(a, name), CellOf(b, name), CellOf(c, name)) {
      SameCells(left, right);
    }
  }

  ghost predicate SameWriter(a: Cell, b: Cell) {
    a.clock.Some? && b.clock.Some? ==> a.clock.value.writer == b.clock.value.writer
  }

  lemma NoCycleThroughOneWriter(x: Cell, y: Cell, z: Cell)
    requires LiveCell(x) && LiveCell(y) && LiveCell(z)
    requires CompatibleCells(x, y) && SameWriter(x, y)
    ensures !(CellBeats(y, x) && CellBeats(z, y) && CellBeats(x, z))
  {
    if CellBeats(y, x) && CellBeats(z, y) && CellBeats(x, z) {
      var u, v, w := x.clock.value, y.clock.value, z.clock.value;
      BeatsMeans(v, u);
      BeatsMeans(w, v);
      BeatsMeans(u, w);
      PrecedesIsTotal(u.writer, w.writer);
      LessTransitive(u.vector, v.vector, w.vector);
      LessTransitive(w.vector, u.vector, v.vector);
      assert false;
    }
  }

  lemma LessTransitive(a: Vector, b: Vector, c: Vector)
    ensures Less(a, b) && Less(b, c) ==> Less(a, c)
  {
    if Less(a, b) && Less(b, c) {
      LeqTransitive(a, b, c);
      if Leq(c, a) {
        LeqTransitive(c, a, b);
      }
    }
  }

  /** With at most two writers there is no such circle. */
  lemma TwoWritersNeverCycle(a: Cell, b: Cell, c: Cell)
    requires LiveCell(a) && LiveCell(b) && LiveCell(c) && PairwiseCompatible(a, b, c)
    requires SameWriter(a, b) || SameWriter(b, c) || SameWriter(a, c)
    ensures !Cycle(a, b, c)
  {
    hide LiveCell, CompatibleCells;
    CompatibleIsSymmetric(a, b);
    CompatibleIsSymmetric(b, c);
    CompatibleIsSymmetric(a, c);
    if SameWriter(a, b) {
      NoCycleThroughOneWriter(a, b, c);
      NoCycleThroughOneWriter(b, a, c);
    } else if SameWriter(b, c) {
      NoCycleThroughOneWriter(b, c, a);
      NoCycleThroughOneWriter(c, b, a);
    } else {
      NoCycleThroughOneWriter(c, a, b);
      NoCycleThroughOneWriter(a, c, b);
    }
  }

  lemma CompatibleIsSymmetric(a: Cell, b: Cell)
    ensures CompatibleCells(a, b) <==> CompatibleCells(b, a)
  {}

  /** So documents written by two devices merge the same way in any grouping. */
  lemma MergeAssociatesForTwoWriters(a: Document, b: Document, c: Document)
    requires Live(a) && Live(b) && Live(c)
    requires Compatible(a, b) && Compatible(b, c) && Compatible(a, c)
    requires forall name ::
      || SameWriter(CellOf(a, name), CellOf(b, name))
      || SameWriter(CellOf(b, name), CellOf(c, name))
      || SameWriter(CellOf(a, name), CellOf(c, name))
    ensures Merge(Merge(a, b), c) == Merge(a, Merge(b, c))
  {
    hide MergeCell, CellOf, LiveCell, CompatibleCells, Merge, Cycle, SameWriter;
    forall name ensures !Cycle(CellOf(a, name), CellOf(b, name), CellOf(c, name)) {
      TwoWritersNeverCycle(CellOf(a, name), CellOf(b, name), CellOf(c, name));
    }
    MergeAssociates(a, b, c);
  }

  function Single(vector: Vector, writer: DeviceId, value: Raw): Document {
    Document(map["f" := value], map["f" := FieldState(vector, writer, Some(Sha256(value)))])
  }

  /** Three writers: the grouping decides which value survives. */
  lemma ThreeWritersDisagree()
    ensures var a, b, c := Single(map["Z" := 1], "Z", "1"), Single(map["Z" := 1, "X" := 1], "X", "2"),
                           Single(map["Y" := 1], "Y", "3");
      Merge(Merge(a, b), c) == c && Merge(a, Merge(b, c)) == a && a != c
  {
    hide Merge;
    var u: Vector, v: Vector, w: Vector := map["Z" := 1], map["Z" := 1, "X" := 1], map["Y" := 1];
    var a, b, c := Single(u, "Z", "1"), Single(v, "X", "2"), Single(w, "Y", "3");
    ThreeClocks(u, v, w);
    assert Precedes("X", "Y") && Precedes("Y", "Z") && !Precedes("Z", "Y");
    RemoteWins(u, v, "Z", "X", "1", "2");
    RemoteWins(v, w, "X", "Y", "2", "3");
    LocalWins(u, w, "Z", "Y", "1", "3");
    assert a.members["f"] != c.members["f"];
  }

  lemma ThreeClocks(u: Vector, v: Vector, w: Vector)
    requires u == map["Z" := 1] && v == map["Z" := 1, "X" := 1] && w == map["Y" := 1]
    ensures Compare(u, v) == Before && Compare(v, w) == Concurrent && Compare(u, w) == Concurrent
  {
    assert v["X"] > Get(u, "X") && v["X"] > Get(w, "X") && w["Y"] > 0 && u["Z"] > Get(w, "Z");
  }

  lemma RemoteWins(v: Vector, w: Vector, local: DeviceId, remote: DeviceId, x: Raw, y: Raw)
    requires Compare(v, w) == Before || (Compare(v, w) == Concurrent && Precedes(local, remote))
    ensures Merge(Single(v, local, x), Single(w, remote, y)) == Single(w, remote, y)
  {
    hide Compare, Merge;
    var a, b := Single(v, local, x), Single(w, remote, y);
    forall name ensures CellOf(Merge(a, b), name) == CellOf(b, name) {}
    SameCells(Merge(a, b), b);
  }

  lemma LocalWins(v: Vector, w: Vector, local: DeviceId, remote: DeviceId, x: Raw, y: Raw)
    requires Compare(v, w) == Concurrent && !Precedes(local, remote)
    ensures Merge(Single(v, local, x), Single(w, remote, y)) == Single(v, local, x)
  {
    hide Compare, Merge;
    var a, b := Single(v, local, x), Single(w, remote, y);
    forall name ensures CellOf(Merge(a, b), name) == CellOf(a, name) {}
    SameCells(Merge(a, b), a);
  }
}
