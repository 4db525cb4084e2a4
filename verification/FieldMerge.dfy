/** Field-level merging of two copies of a JSON object, each field with the clock of its last write. */
module FieldMerge {
  import opened Options
  import opened VersionVectors

  /** The raw text of a JSON value. */
  type Raw = string

  /** SHA-256 is taken to be injective: a digest determines the text it was computed from. */
  datatype Digest = Sha256(text: Raw)

  /** The clock of a field's last write; no hash means that the field was deleted. */
  datatype FieldState = FieldState(vector: Vector, writer: DeviceId, hash: Option<Digest>)

  type Object = map<string, Raw>

  type Fields = map<string, FieldState>

  datatype Document = Document(members: Object, fields: Fields)

  // ----- the order of writer names -----

  /** The byte order of strings. */
  predicate Precedes(a: string, b: string) {
    b != [] && (a == [] || a[0] < b[0] || (a[0] == b[0] && Precedes(a[1..], b[1..])))
  }

  lemma {:induction false} PrecedesIsTotal(a: string, b: string)
    ensures a == b <==> !Precedes(a, b) && !Precedes(b, a)
    ensures !(Precedes(a, b) && Precedes(b, a))
    decreases |a|
  {
    if a != [] && b != [] {
      PrecedesIsTotal(a[1..], b[1..]);
      if a[0] == b[0] && a[1..] == b[1..] {
        assert a == [a[0]] + a[1..] == b;
      }
    }
  }

  /** The first difference decides, whatever follows it. */
  lemma {:induction false} FirstDifferenceDecides(p: string, x: char, s: string, y: char, t: string)
    requires x < y
    ensures Precedes(p + [x] + s, p + [y] + t) && !Precedes(p + [y] + t, p + [x] + s)
    decreases |p|
  {
    var a, b := p + [x] + s, p + [y] + t;
    if p == [] {
      assert a == [x] + s && b == [y] + t;
    } else {
      assert a[1..] == p[1..] + [x] + s && b[1..] == p[1..] + [y] + t;
      FirstDifferenceDecides(p[1..], x, s, y, t);
    }
  }

  /** A name comes before its extensions. */
  lemma {:induction false} PrefixPrecedes(p: string, s: string)
    ensures Precedes(p, p + s) <==> s != []
    ensures !Precedes(p + s, p)
    decreases |p|
  {
    if p == [] {
      assert p + s == s;
    } else {
      assert (p + s)[1..] == p[1..] + s;
      PrefixPrecedes(p[1..], s);
    }
  }

  // ----- which of two writes wins -----

  /** The remote write wins over the local one. */
  ghost predicate Beats(remote: FieldState, local: FieldState) {
    match Compare(local.vector, remote.vector)
    case Before => true
    case After => false
    case _ => Precedes(local.writer, remote.writer)
  }

  /** One field of a document: its clock and its value. */
  datatype Cell = Cell(clock: Option<FieldState>, value: Option<Raw>)

  function CellOf(d: Document, name: string): Cell {
    Cell(if name in d.fields then Some(d.fields[name]) else None,
         if name in d.members then Some(d.members[name]) else None)
  }

  /** The value that survives with a winning cell: none if the write was a deletion. */
  function Kept(c: Cell): Cell { if c.clock.Some? && c.clock.value.hash.Some? then c else c.(value := None) }

  ghost function MergeCell(local: Cell, remote: Cell): Cell {
    if local.clock.None? || (remote.clock.Some? && Beats(remote.clock.value, local.clock.value))
    then Kept(remote) else Kept(local)
  }

  /** `m` is the merge of the two documents, field by field. */
  ghost predicate IsMerge(local: Document, remote: Document, m: Document) {
    forall name :: CellOf(m, name) == MergeCell(CellOf(local, name), CellOf(remote, name))
  }

  lemma MergeStaysInside(local: Document, remote: Document)
    ensures forall name :: var c := MergeCell(CellOf(local, name), CellOf(remote, name));
      && (c.value.Some? ==> name in local.members.Keys + remote.members.Keys)
      && (c.clock.Some? ==> name in local.fields.Keys + remote.fields.Keys)
  {
    hide Beats;
  }

  ghost function Merge(local: Document, remote: Document): (m: Document)
    ensures IsMerge(local, remote, m)
  {
    hide MergeCell;
    MergeStaysInside(local, remote);
    Document(
      map name | name in local.members.Keys + remote.members.Keys
                 && MergeCell(CellOf(local, name), CellOf(remote, name)).value.Some? ::
        MergeCell(CellOf(local, name), CellOf(remote, name)).value.value,
      map name | name in local.fields.Keys + remote.fields.Keys
                 && MergeCell(CellOf(local, name), CellOf(remote, name)).clock.Some? ::
        MergeCell(CellOf(local, name), CellOf(remote, name)).clock.value)
  }

  /** A document is determined by its cells. */
  lemma SameCells(a: Document, b: Document)
    requires forall name :: CellOf(a, name) == CellOf(b, name)
    ensures a == b
  {
    forall name
      ensures name in a.members <==> name in b.members
      ensures name in a.members ==> a.members[name] == b.members[name]
      ensures name in a.fields <==> name in b.fields
      ensures name in a.fields ==> a.fields[name] == b.fields[name]
    {
      assert CellOf(a, name) == CellOf(b, name);
    }
  }

  method Wins(remote: FieldState, local: FieldState) returns (useRemote: bool)
    ensures useRemote == Beats(remote, local)
  {
    var relation := CompareVectors(local.vector, remote.vector);
    match relation
    case Before => useRemote := true;
    case After => useRemote := false;
    case _ => useRemote := Precedes(local.writer, remote.writer);
  }

  /** One field of the merged object. */
  method MergeField(local: Document, remote: Document, name: string) returns (merged: Cell)
    ensures merged == MergeCell(CellOf(local, name), CellOf(remote, name))
  {
    var useRemote := name !in local.fields;
    if name in local.fields && name in remote.fields {
      useRemote := Wins(remote.fields[name], local.fields[name]);
    }
    merged := Cell(None, None);
    if useRemote {
      if name in remote.members && name in remote.fields && remote.fields[name].hash.Some? {
        merged := merged.(value := Some(remote.members[name]));
      }
      if name in remote.fields {
        merged := merged.(clock := Some(remote.fields[name]));
      }
    } else {
      if name in local.members && local.fields[name].hash.Some? {
        merged := merged.(value := Some(local.members[name]));
      }
      merged := merged.(clock := Some(local.fields[name]));
    }
  }

  method MergeJSONFields(local: Document, remote: Document) returns (result: Document)
    ensures result == Merge(local, remote)
  {
    hide MergeCell, CellOf, Stored, Merge;
    result := Document(map[], map[]);
    var names := local.fields.Keys + remote.fields.Keys + local.members.Keys + remote.members.Keys;
    MergeOfNothing(local, remote);
    while names != {}
      invariant forall name :: name in names ==> CellOf(result, name) == Cell(None, None)
      invariant forall name :: name !in names ==>
        CellOf(result, name) == MergeCell(CellOf(local, name), CellOf(remote, name))
      decreases |names|
    {
      var name :| name in names;
      names := names - {name};
      var merged := MergeField(local, remote, name);
      result := Stored(result, name, merged);
    }
    SameCells(result, Merge(local, remote));
  }

  lemma MergeOfNothing(local: Document, remote: Document)
    ensures forall name :: CellOf(Document(map[], map[]), name) == Cell(None, None)
    ensures forall name ::
      name !in local.fields.Keys + remote.fields.Keys + local.members.Keys + remote.members.Keys ==>
        MergeCell(CellOf(local, name), CellOf(remote, name)) == Cell(None, None)
  {}

  function Stored(d: Document, name: string, c: Cell): (r: Document)
    requires CellOf(d, name) == Cell(None, None)
    ensures CellOf(r, name) == c && forall other :: other != name ==> CellOf(r, other) == CellOf(d, other)
  {
    Document(if c.value.Some? then d.members[name := c.value.value] else d.members,
             if c.clock.Some? then d.fields[name := c.clock.value] else d.fields)
  }
}
