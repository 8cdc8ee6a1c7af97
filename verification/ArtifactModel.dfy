/** The artifact tables and what publishing, deleting and restoring does to
    them. Identifiers are only ever compared, so they are numbers here. A call
    that fails leaves the tables as they were. */
module ArtifactModel {
  import opened Wrappers

  const I64_MAX: nat := 0x7FFF_FFFF_FFFF_FFFF

  type Id = nat

  datatype Artifact = Artifact(project: Id, kind: Id, current: Option<Id>, deletedAt: Option<int>)

  /** A version with the digests of the blobs it links to. */
  datatype Version = Version(artifact: Id, number: nat, parent: Option<Id>, digest: Id, blobs: set<Id>)

  datatype Meta = Meta(media: Id, bytes: nat, path: Id)

  datatype Blob = Blob(meta: Meta, count: nat)

  datatype Receipt = Receipt(artifactRef: Id, versionRef: Id, digest: Id, details: Id)

  datatype Publication = Publication(digest: Id, artifact: Id, version: Id, receipt: Receipt)

  datatype Key = Key(project: Id, idempotency: Id)

  datatype Db = Db(
    artifacts: map<Id, Artifact>,
    versions: map<Id, Version>,
    blobs: map<Id, Blob>,
    publications: map<Key, Publication>)

  datatype BlobRef = BlobRef(digest: Id, meta: Meta)

  /** `wellFormed` stands for the checks on the shape of tokens, digests and notices. */
  datatype Write = Write(
    artifactRef: Id, existing: Option<Id>, versionRef: Id, key: Key, kind: Id,
    parent: Option<Id>, initial: bool, digest: Id, receipt: Receipt, refs: seq<BlobRef>, wellFormed: bool)

  datatype Error =
    | InvalidInput | UnknownArtifact | CrossProject | IdempotencyConflict | BlobMetadataConflict | Constraint

  datatype Outcome = Created(receipt: Receipt) | Replayed(receipt: Receipt)

  // ---------------------------------------------------------------- one write

  predicate ValidWrite(input: Write) {
    && input.wellFormed
    && input.receipt.artifactRef == input.artifactRef
    && input.receipt.versionRef == input.versionRef
    && input.receipt.digest == input.digest
    && (input.existing.None? ==> input.parent.None? && input.initial)
    && (input.existing.Some? ==> input.parent == input.existing)
  }

  ghost predicate IsHighest(versions: map<Id, Version>, artifact: Id, n: nat) {
    && (forall v | v in versions && versions[v].artifact == artifact :: versions[v].number <= n)
    && (n == 0 || exists v :: v in versions && versions[v].artifact == artifact && versions[v].number == n)
  }

  lemma {:induction false} HighestExists(versions: map<Id, Version>, artifact: Id)
    ensures exists n: nat :: IsHighest(versions, artifact, n)
    decreases |versions|
  {
    if |versions| == 0 {
      assert IsHighest(versions, artifact, 0);
    } else {
      var v :| v in versions;
      var rest := versions - {v};
      HighestExists(rest, artifact);
      var n: nat :| IsHighest(rest, artifact, n);
      var m := if versions[v].artifact == artifact && versions[v].number > n then versions[v].number else n;
      if m == n && n > 0 {
        var w :| w in rest && rest[w].artifact == artifact && rest[w].number == n;
        assert w in versions && versions[w] == rest[w];
      }
      assert forall w | w in versions :: w == v || w in rest;
      assert IsHighest(versions, artifact, m);
    }
  }

  lemma HighestUnique(versions: map<Id, Version>, artifact: Id, m: nat, n: nat)
    requires IsHighest(versions, artifact, m) && IsHighest(versions, artifact, n)
    ensures m == n
  {
  }

  /** The largest version number of an artifact, 0 when it has none. */
  ghost function Highest(versions: map<Id, Version>, artifact: Id): (n: nat)
    ensures IsHighest(versions, artifact, n)
  {
    HighestExists(versions, artifact);
    var n: nat :| IsHighest(versions, artifact, n);
    n
  }

  /** Where a new version goes. */
  datatype Slot = Slot(artifact: Id, number: nat, parent: Option<Id>)

  ghost function Resolve(db: Db, input: Write): Result<Slot, Error> {
    if input.existing.None? then Success(Slot(input.artifactRef, 1, None))
    else
      var a := input.existing.value;
      if a !in db.artifacts then Failure(UnknownArtifact)
      else if db.artifacts[a].project != input.key.project then Failure(CrossProject)
      else if db.artifacts[a].kind != input.kind || db.artifacts[a].deletedAt.Some? then Failure(InvalidInput)
      else if db.artifacts[a].current.None? then Failure(InvalidInput)
      else Success(Slot(a, Highest(db.versions, a) + 1, db.artifacts[a].current))
  }

  /** The blob table and the links of the version being written. */
  datatype Linked = Linked(blobs: map<Id, Blob>, links: set<Id>)

  function Upsert(s: Linked, ref: BlobRef): Result<Linked, Error> {
    if ref.meta.bytes > I64_MAX then Failure(InvalidInput)
    else if ref.digest in s.blobs && s.blobs[ref.digest].meta != ref.meta then Failure(BlobMetadataConflict)
    else
      var stored := if ref.digest in s.blobs then s.blobs[ref.digest] else Blob(ref.meta, 0);
      var inserted := if ref.digest in s.links then 0 else 1;
      Success(Linked(s.blobs[ref.digest := Blob(stored.meta, stored.count + inserted)], s.links + {ref.digest}))
  }

  function UpsertAll(blobs: map<Id, Blob>, refs: seq<BlobRef>): Result<Linked, Error> {
    if refs == [] then Success(Linked(blobs, {}))
    else
      var front := UpsertAll(blobs, refs[..|refs| - 1]);
      if front.Failure? then front else Upsert(front.value, refs[|refs| - 1])
  }

  ghost function WriteVersion(db: Db, input: Write, slot: Slot): Result<Db, Error>
    requires input.existing.Some? ==> slot.artifact in db.artifacts
  {
    if input.existing.None? && slot.artifact in db.artifacts then Failure(Constraint)
    else if input.versionRef in db.versions then Failure(Constraint)
    else
      var linked := UpsertAll(db.blobs, input.refs);
      if linked.Failure? then Failure(linked.error)
      else
        var row := if input.existing.Some? then db.artifacts[slot.artifact]
                   else Artifact(input.key.project, input.kind, None, None);
        Success(Db(
          db.artifacts[slot.artifact := row.(current := Some(input.versionRef))],
          db.versions[input.versionRef := Version(slot.artifact, slot.number, slot.parent, input.digest,
            linked.value.links)],
          linked.value.blobs,
          db.publications[input.key := Publication(input.digest, slot.artifact, input.versionRef, input.receipt)]))
  }

  datatype Step<R> = Step(db: Db, result: Result<R, Error>)

  ghost function Persist(db: Db, input: Write): Step<Outcome> {
    if !ValidWrite(input) then Step(db, Failure(InvalidInput))
    else if input.key in db.publications then
      var stored := db.publications[input.key];
      Step(db, if stored.digest == input.digest then Success(Replayed(stored.receipt))
               else Failure(IdempotencyConflict))
    else
      var slot := Resolve(db, input);
      if slot.Failure? then Step(db, Failure(slot.error))
      else
        var written := WriteVersion(db, input, slot.value);
        if written.Failure? then Step(db, Failure(written.error))
        else Step(written.value, Success(Created(input.receipt)))
  }

  // ----------------------------------------------------------- delete and restore

  /** The versions of an artifact that link to a digest. */
  function Held(versions: map<Id, Version>, artifact: Id, digest: Id): set<Id> {
    set v | v in versions && versions[v].artifact == artifact && digest in versions[v].blobs
  }

  /** The digests an artifact links to. */
  function Uses(db: Db, artifact: Id): set<Id> {
    set d | d in db.blobs && Held(db.versions, artifact, d) != {}
  }

  function Lowered(versions: map<Id, Version>, artifact: Id, digest: Id, blob: Blob): Blob {
    var n := |Held(versions, artifact, digest)|;
    blob.(count := if blob.count >= n then blob.count - n else 0)
  }

  function Raised(versions: map<Id, Version>, artifact: Id, digest: Id, blob: Blob): Blob {
    blob.(count := blob.count + |Held(versions, artifact, digest)|)
  }

  function Guard(db: Db, project: Id, artifact: Id): Option<Error> {
    if artifact !in db.artifacts then Some(UnknownArtifact)
    else if db.artifacts[artifact].project != project then Some(CrossProject)
    else None
  }

  function DeletedDb(db: Db, artifact: Id, at: int): Db
    requires artifact in db.artifacts
  {
    var row := db.artifacts[artifact];
    var deletedAt := if row.deletedAt.None? then Some(at) else row.deletedAt;
    db.(artifacts := db.artifacts[artifact := row.(deletedAt := deletedAt)],
        blobs := map d | d in db.blobs :: Lowered(db.versions, artifact, d, db.blobs[d]))
  }

  /** The counts are lowered whether or not the artifact was already deleted. */
  function SoftDelete(db: Db, project: Id, artifact: Id, at: int): Step<set<Id>> {
    if Guard(db, project, artifact).Some? then Step(db, Failure(Guard(db, project, artifact).value))
    else Step(DeletedDb(db, artifact, at), Success(Uses(db, artifact)))
  }

  function RestoredDb(db: Db, artifact: Id): Db
    requires artifact in db.artifacts
  {
    if db.artifacts[artifact].deletedAt.None? then db
    else
      db.(artifacts := db.artifacts[artifact := db.artifacts[artifact].(deletedAt := None)],
          blobs := map d | d in db.blobs :: Raised(db.versions, artifact, d, db.blobs[d]))
  }

  function Restore(db: Db, project: Id, artifact: Id): Step<set<Id>> {
    if Guard(db, project, artifact).Some? then Step(db, Failure(Guard(db, project, artifact).value))
    else Step(RestoredDb(db, artifact),
      Success(if db.artifacts[artifact].deletedAt.None? then {} else Uses(db, artifact)))
  }

  // ------------------------------------------------------------------------ runs

  datatype Op =
    | Publish(input: Write)
    | Delete(project: Id, artifact: Id, at: int)
    | Revive(project: Id, artifact: Id)

  ghost function Apply(db: Db, op: Op): Db {
    match op
    case Publish(input) => Persist(db, input).db
    case Delete(project, artifact, at) => SoftDelete(db, project, artifact, at).db
    case Revive(project, artifact) => Restore(db, project, artifact).db
  }

  ghost function Run(db: Db, ops: seq<Op>): Db
    decreases ops
  {
    if ops == [] then db else Run(Apply(db, ops[0]), ops[1..])
  }

  const EMPTY: Db := Db(map[], map[], map[], map[])
}
