/** Pulling and pushing encrypted records, as transitions over the vault and the synchronization state. */
module SyncSpec {
  import opened Options
  import opened VersionVectors
  import opened FieldMerge

  type EntityId = string
  type Kind = string

  const CREDENTIAL: Kind := "credential"

  /** The JSON text of a record: an object, or valid JSON of another shape. */
  datatype Json = Members(members: Object) | NotAnObject(text: Raw)

  /** SHA-256 of a record's text, again taken to be injective. */
  datatype RecordDigest = Sha256Record(data: Json)

  datatype RecordState = RecordState(
    version: int64, vector: Vector, hash: Option<RecordDigest>, fields: Fields, tombstone: bool)

  /** What is known about an entity that was never synchronized. */
  const UNKNOWN := RecordState(0, map[], None, map[], false)

  // ----- sealed payloads -----

  /** A decrypted payload: an envelope of the current format, a bare object of an older client, or neither. */
  datatype Payload = Envelope(data: Json, fields: Fields) | Bare(members: Object) | Malformed

  type Key = string

  datatype Aad = Aad(kind: Kind, entity: EntityId, version: int64, vector: Vector)

  /** Authenticated encryption, taken as ideal: a ciphertext opens with its key and associated data and with
      no others. */
  datatype Ciphertext = Sealed(key: Key, aad: Aad, payload: Payload) | Forged

  function Seal(key: Key, payload: Payload, aad: Aad): Ciphertext { Sealed(key, aad, payload) }

  function Open(key: Key, c: Ciphertext, aad: Aad): Option<Payload> {
    if c.Sealed? && c.key == key && c.aad == aad then Some(c.payload) else None
  }

  datatype ServerRecord = ServerRecord(
    id: string, kind: Kind, entity: EntityId, deviceId: DeviceId, version: int64, vector: Vector,
    tombstone: bool, body: Ciphertext)
  {
    function Associated(): Aad { Aad(kind, entity, version, vector) }
  }

  /** The vector of a record; older clients only sent a version. */
  function Normalized(r: ServerRecord): (v: Vector)
    ensures Positive(v)
  {
    if r.vector != map[] then Cloned(r.vector)
    else if r.deviceId != "" && r.version > 0 then map[r.deviceId := r.version]
    else map[]
  }

  datatype SyncError = AuthenticationFailed | InvalidPayload | NotJsonObject

  datatype Parsed = Parsed(data: Json, fields: Fields)

  /** The clock a field gets when its payload carries none. */
  function FreshClocks(members: Object, vector: Vector, writer: DeviceId): Fields {
    map name | name in members :: FieldState(Cloned(vector), writer, Some(Sha256(members[name])))
  }

  function Parse(p: Payload, fallback: Vector, writer: DeviceId): Option<Parsed> {
    match p
    case Envelope(data, fields) => Some(Parsed(data, fields))
    case Bare(members) => Some(Parsed(Members(members), FreshClocks(members, fallback, writer)))
    case Malformed => None
  }

  // ----- pulling -----

  /** What is in a record, if it was sealed with this key for this place and has a known form. */
  function Read(cfg: Config, r: ServerRecord): Option<Parsed> {
    match Open(cfg.key, r.body, r.Associated())
    case None => None
    case Some(payload) => Parse(payload, Normalized(r), r.deviceId)
  }

  /** Which credentials may be stored: the credential's own choice, its connections' choice, the default. */
  datatype Policy = Policy(overrides: map<EntityId, bool>, default: bool)

  predicate CredentialAllowed(policy: Policy, id: EntityId, data: Json) {
    if data.Members? && "syncOverride" in data.members && data.members["syncOverride"] == "true" then true
    else if data.Members? && "syncOverride" in data.members && data.members["syncOverride"] == "false" then false
    else if id in policy.overrides then policy.overrides[id]
    else policy.default
  }

  datatype Config = Config(key: Key, allowed: set<Kind>, policy: Policy)

  datatype Row = Row(kind: Kind, data: Json)

  /** `vault` is what is stored; `local` the exported texts the pull started from, kept up to date. */
  datatype State = State(
    records: map<EntityId, RecordState>, deferred: map<string, ServerRecord>,
    vault: map<EntityId, Row>, local: map<EntityId, Json>)
  {
    function Known(id: EntityId): RecordState { if id in records then records[id] else UNKNOWN }

    function Defer(r: ServerRecord): State { this.(deferred := deferred[r.id := r]) }

    function Take(r: ServerRecord): State { this.(deferred := deferred - {r.id}) }

    function Store(id: EntityId, kind: Kind, data: Json): State {
      this.(vault := vault[id := Row(kind, data)], local := local[id := data])
    }

    function Erase(id: EntityId): State { this.(vault := vault - {id}, local := local - {id}) }

    function Remember(id: EntityId, r: RecordState): State { this.(records := records[id := r]) }
  }

  datatype Tally = Tally(applied: nat, conflicts: nat)

  datatype Outcome = Outcome(state: State, tally: Tally, err: Option<SyncError>)

  /** The local text differs from what was last synchronized. */
  predicate LocallyChanged(previous: RecordState, local: Option<Json>) {
    && previous.version > 0 && !previous.tombstone
    && !(local.Some? && previous.hash == Some(Sha256Record(local.value)))
  }

  function LocalOf(st: State, id: EntityId): Option<Json> { if id in st.local then Some(st.local[id]) else None }

  const CONFLICT_MARK: string := "\U{FF08}\U{540C}\U{6B65}\U{51B2}\U{7A81}\U{FF09}"

  const QUOTE: char := '"'

  /** The JSON text of a string; what it contains needs no escape. */
  function Quoted(s: string): Raw { [QUOTE] + s + [QUOTE] }

  /** What is between the quotes of a JSON string; other values have no text. */
  function TextOf(value: Raw): string {
    if |value| >= 2 && value[0] == QUOTE then value[1..|value| - 1] else ""
  }

  /** The copy under which a conflicting credential is kept: with its own identifier, and its name marked. */
  function ConflictCopy(members: Object, id: EntityId): Object {
    members["id" := Quoted(id)]["name" := Quoted((if "name" in members then TextOf(members["name"]) else "") + CONFLICT_MARK)]
  }

  ghost function Synced(vector: Vector, data: Json, fields: Fields, tombstone: bool): RecordState {
    RecordState(MaxCounter(vector), vector, Some(Sha256Record(data)), fields, tombstone)
  }

  /** A deletion: it is applied, unless it is concurrent with a local edit, which then survives. */
  ghost function ApplyDeletion(st: State, t: Tally, r: ServerRecord, p: Parsed, vector: Vector,
                               concurrent: bool): Outcome {
    if concurrent && r.entity in st.local then
      Outcome(st.Remember(r.entity, RecordState(MaxCounter(vector), vector, None, st.Known(r.entity).fields, false)),
              Tally(t.applied + 1, t.conflicts + 1), None)
    else
      Outcome(st.Erase(r.entity).Remember(r.entity, Synced(vector, p.data, p.fields, true)),
              t.(applied := t.applied + 1), None)
  }

  /** A credential changed on both sides: the remote one is kept beside the local one. */
  ghost function ApplyCredentialConflict(st: State, t: Tally, r: ServerRecord, p: Parsed, vector: Vector,
                                         copy: EntityId): Outcome {
    if !p.data.Members? then Outcome(st, t, Some(NotJsonObject))
    else
      var data := Members(ConflictCopy(p.data.members, copy));
      Outcome(st.Store(copy, r.kind, data).Remember(copy, Synced(vector, data, p.fields, false)),
              Tally(t.applied + 1, t.conflicts + 1), None)
  }

  ghost function ApplyMerge(st: State, t: Tally, r: ServerRecord, p: Parsed, vector: Vector): Outcome
    requires r.entity in st.local
  {
    var local := st.local[r.entity];
    if !local.Members? || !p.data.Members? then Outcome(st, t, Some(NotJsonObject))
    else
      var m := Merge(Document(local.members, st.Known(r.entity).fields), Document(p.data.members, p.fields));
      Outcome(st.Store(r.entity, r.kind, Members(m.members))
                .Remember(r.entity, Synced(vector, Members(m.members), m.fields, false)),
              t.(applied := t.applied + 1), None)
  }

  ghost function ApplyRemote(st: State, t: Tally, r: ServerRecord, p: Parsed, vector: Vector): Outcome {
    Outcome(st.Store(r.entity, r.kind, p.data).Remember(r.entity, Synced(vector, p.data, p.fields, false)),
            t.(applied := t.applied + 1), None)
  }

  ghost predicate IsConcurrent(st: State, r: ServerRecord) {
    var previous := st.Known(r.entity);
    Compare(previous.vector, Normalized(r)) == Concurrent || LocallyChanged(previous, LocalOf(st, r.entity))
  }

  ghost function Apply(st: State, t: Tally, r: ServerRecord, p: Parsed, copy: EntityId): Outcome {
    var vector := Merged(st.Known(r.entity).vector, Normalized(r));
    var concurrent := IsConcurrent(st, r);
    if r.tombstone then ApplyDeletion(st, t, r, p, vector, concurrent)
    else if concurrent && r.kind == CREDENTIAL then ApplyCredentialConflict(st, t, r, p, vector, copy)
    else if concurrent && r.entity in st.local then ApplyMerge(st, t, r, p, vector)
    else ApplyRemote(st, t, r, p, vector)
  }

  /** Nothing new: the vector is already covered. */
  ghost predicate Stale(st: State, r: ServerRecord) {
    var relation := Compare(st.Known(r.entity).vector, Normalized(r));
    relation == Equal || relation == After
  }

  /** Decrypting and reading a record that is news. */
  ghost function Receive(cfg: Config, st: State, t: Tally, r: ServerRecord, copy: EntityId): Outcome {
    match Open(cfg.key, r.body, r.Associated())
    case None => Outcome(st, t, Some(AuthenticationFailed))
    case Some(payload) =>
      match Parse(payload, Normalized(r), r.deviceId)
      case None => Outcome(st, t, Some(InvalidPayload))
      case Some(p) =>
        if r.kind == CREDENTIAL && !CredentialAllowed(cfg.policy, r.entity, p.data)
        then Outcome(st.Defer(r), t, None)
        else Apply(st, t, r, p, copy)
  }

  /** One pulled record; `copy` is the identifier a conflicting credential would get. */
  ghost function Step(cfg: Config, st: State, t: Tally, r: ServerRecord, copy: EntityId): Outcome {
    if r.kind !in cfg.allowed then Outcome(st.Defer(r), t, None)
    else
      var taken := st.Take(r);
      if Stale(taken, r) then Outcome(taken, t, None) else Receive(cfg, taken, t, r, copy)
  }

  /** A batch, up to the first error. */
  ghost function Pull(cfg: Config, st: State, t: Tally, batch: seq<ServerRecord>, copies: seq<EntityId>): Outcome
    requires |copies| == |batch|
    decreases |batch|
  {
    if batch == [] then Outcome(st, t, None)
    else
      var first := Step(cfg, st, t, batch[0], copies[0]);
      if first.err.Some? then first else Pull(cfg, first.state, first.tally, batch[1..], copies[1..])
  }

  /** `list` holds the deferred records, each once or more. */
  ghost predicate Lists(list: seq<ServerRecord>, deferred: map<string, ServerRecord>) {
    && (forall r :: r in list ==> r.id in deferred && deferred[r.id] == r)
    && (forall id :: id in deferred ==> deferred[id] in list && deferred[id].id == id)
  }

  /** The texts that a pull starts from. */
  function Exported(cfg: Config, vault: map<EntityId, Row>): map<EntityId, Json> {
    map id | id in vault && vault[id].kind in cfg.allowed :: vault[id].data
  }
}
