/** The artifact store as an object whose tables its methods update in place. */
module ArtifactStore {
  import opened Wrappers
  import opened ArtifactModel
  import opened ArtifactTheorems

  /** SELECT COALESCE(MAX(version_number), 0) for one artifact. */
  method HighestVersion(versions: map<Id, Version>, artifact: Id) returns (n: nat)
    ensures n == Highest(versions, artifact)
  {
    n := 0;
    var todo := versions.Keys;
    while todo != {}
      invariant todo <= versions.Keys
      invariant forall v | v in versions && v !in todo && versions[v].artifact == artifact :: versions[v].number <= n
      invariant n == 0 || exists v :: v in versions && versions[v].artifact == artifact && versions[v].number == n
      decreases todo
    {
      var v :| v in todo;
      if versions[v].artifact == artifact && versions[v].number > n { n := versions[v].number; }
      todo := todo - {v};
    }
    HighestUnique(versions, artifact, n, Highest(versions, artifact));
  }

  /** One reference after the other; the first that fails ends the write. */
  method UpsertBlobs(blobs: map<Id, Blob>, refs: seq<BlobRef>) returns (r: Result<Linked, Error>)
    ensures r == UpsertAll(blobs, refs)
  {
    var linked := Linked(blobs, {});
    for i := 0 to |refs|
      invariant UpsertAll(blobs, refs[..i]) == Success(linked)
    {
      assert refs[..i + 1][..i] == refs[..i];
      var next := Upsert(linked, refs[i]);
      if next.Failure? {
        FailureStays(blobs, refs, i + 1);
        return next;
      }
      linked := next.value;
    }
    assert refs[..|refs|] == refs;
    return Success(linked);
  }

  lemma {:induction false} FailureStays(blobs: map<Id, Blob>, refs: seq<BlobRef>, n: nat)
    requires n <= |refs| && UpsertAll(blobs, refs[..n]).Failure?
    ensures UpsertAll(blobs, refs) == UpsertAll(blobs, refs[..n])
    decreases |refs|
  {
    if n == |refs| {
      assert refs[..n] == refs;
    } else {
      assert refs[..|refs| - 1][..n] == refs[..n];
      FailureStays(blobs, refs[..|refs| - 1], n);
    }
  }

  /** The bytes of all referenced blobs. */
  method TotalBytes(blobs: map<Id, Blob>) returns (total: nat)
    ensures total == Total(blobs)
  {
    total := 0;
    var todo := blobs.Keys;
    while todo != {}
      invariant todo <= blobs.Keys && total + Sum(blobs, todo) == Total(blobs)
      decreases todo
    {
      var d :| d in todo;
      SumSplit(blobs, todo, d);
      if blobs[d].count > 0 { total := total + blobs[d].meta.bytes; }
      todo := todo - {d};
    }
  }

  /** The bytes a publication would add, added up with saturation. */
  method ProjectedBytes(blobs: map<Id, Blob>, refs: seq<BlobRef>) returns (projected: nat)
    ensures projected == Saturate(Projected(blobs, refs))
  {
    projected := 0;
    for i := 0 to |refs|
      invariant projected == Saturate(Projected(blobs, refs[..i]))
    {
      assert refs[..i + 1][..i] == refs[..i];
      if Uncounted(blobs, refs[i].digest) { projected := Saturate(projected + refs[i].meta.bytes); }
    }
    assert refs[..|refs|] == refs;
  }

  class Store {
    var artifacts: map<Id, Artifact>
    var versions: map<Id, Version>
    var blobs: map<Id, Blob>
    var publications: map<Key, Publication>

    constructor ()
      ensures Tables() == EMPTY
    {
      artifacts, versions, blobs, publications := map[], map[], map[], map[];
    }

    function Tables(): Db
      reads this
    {
      Db(artifacts, versions, blobs, publications)
    }

    method FindSlot(input: Write) returns (r: Result<Slot, Error>)
      ensures r == Resolve(Tables(), input)
    {
      if input.existing.None? { return Success(Slot(input.artifactRef, 1, None)); }
      var a := input.existing.value;
      if a !in artifacts { return Failure(UnknownArtifact); }
      if artifacts[a].project != input.key.project { return Failure(CrossProject); }
      if artifacts[a].kind != input.kind || artifacts[a].deletedAt.Some? { return Failure(InvalidInput); }
      if artifacts[a].current.None? { return Failure(InvalidInput); }
      var highest := HighestVersion(versions, a);
      return Success(Slot(a, highest + 1, artifacts[a].current));
    }

    method PersistPublication(input: Write) returns (r: Result<Outcome, Error>)
      modifies this
      ensures Step(Tables(), r) == Persist(old(Tables()), input)
    {
      if !ValidWrite(input) { return Failure(InvalidInput); }
      if input.key in publications {
        var stored := publications[input.key];
        if stored.digest == input.digest { return Success(Replayed(stored.receipt)); }
        return Failure(IdempotencyConflict);
      }
      var slot := FindSlot(input);
      if slot.Failure? { return Failure(slot.error); }
      r := Commit(input, slot.value);
    }

    method Commit(input: Write, slot: Slot) returns (r: Result<Outcome, Error>)
      requires input.existing.Some? ==> slot.artifact in artifacts
      modifies this
      ensures var written := WriteVersion(old(Tables()), input, slot);
              if written.Success? then Tables() == written.value && r == Success(Created(input.receipt))
              else Tables() == old(Tables()) && r == Failure(written.error)
    {
      if input.existing.None? && slot.artifact in artifacts { return Failure(Constraint); }
      if input.versionRef in versions { return Failure(Constraint); }
      var linked := UpsertBlobs(blobs, input.refs);
      if linked.Failure? { return Failure(linked.error); }
      if input.existing.None? {
        artifacts := artifacts[slot.artifact := Artifact(input.key.project, input.kind, None, None)];
      }
      versions := versions[input.versionRef := Version(slot.artifact, slot.number, slot.parent, input.digest,
        linked.value.links)];
      blobs := linked.value.blobs;
      artifacts := artifacts[slot.artifact := artifacts[slot.artifact].(current := Some(input.versionRef))];
      publications := publications[input.key := Publication(input.digest, slot.artifact, input.versionRef,
        input.receipt)];
      assert artifacts == WriteVersion(old(Tables()), input, slot).value.artifacts;
      return Success(Created(input.receipt));
    }

    method DeleteArtifact(project: Id, artifact: Id, at: int) returns (r: Result<set<Id>, Error>)
      modifies this
      ensures Step(Tables(), r) == SoftDelete(old(Tables()), project, artifact, at)
    {
      if artifact !in artifacts { return Failure(UnknownArtifact); }
      if artifacts[artifact].project != project { return Failure(CrossProject); }
      var digests := Uses(Tables(), artifact);
      if artifacts[artifact].deletedAt.None? {
        artifacts := artifacts[artifact := artifacts[artifact].(deletedAt := Some(at))];
      }
      assert artifacts == DeletedDb(old(Tables()), artifact, at).artifacts;
      LowerCounts(artifact, digests);
      assert blobs == DeletedDb(old(Tables()), artifact, at).blobs;
      return Success(digests);
    }

    method LowerCounts(artifact: Id, digests: set<Id>)
      requires digests <= blobs.Keys
      modifies this`blobs
      ensures blobs.Keys == old(blobs).Keys
      ensures forall d | d in blobs ::
                blobs[d] == if d in digests then Lowered(versions, artifact, d, old(blobs)[d]) else old(blobs)[d]
    {
      var todo := digests;
      while todo != {}
        invariant todo <= digests && blobs.Keys == old(blobs).Keys
        invariant forall d | d in blobs ::
          blobs[d] == if d in digests && d !in todo then Lowered(versions, artifact, d, old(blobs)[d])
            else old(blobs)[d]
        decreases todo
      {
        var d :| d in todo;
        blobs := blobs[d := Lowered(versions, artifact, d, blobs[d])];
        todo := todo - {d};
      }
    }

    method RaiseCounts(artifact: Id, digests: set<Id>)
      requires digests <= blobs.Keys
      modifies this`blobs
      ensures blobs.Keys == old(blobs).Keys
      ensures forall d | d in blobs ::
                blobs[d] == if d in digests then Raised(versions, artifact, d, old(blobs)[d]) else old(blobs)[d]
    {
      var todo := digests;
      while todo != {}
        invariant todo <= digests && blobs.Keys == old(blobs).Keys
        invariant forall d | d in blobs ::
          blobs[d] == if d in digests && d !in todo then Raised(versions, artifact, d, old(blobs)[d]) else old(blobs)[d]
        decreases todo
      {
        var d :| d in todo;
        blobs := blobs[d := Raised(versions, artifact, d, blobs[d])];
        todo := todo - {d};
      }
    }

    method RestoreArtifact(project: Id, artifact: Id) returns (r: Result<set<Id>, Error>)
      modifies this
      ensures Step(Tables(), r) == Restore(old(Tables()), project, artifact)
    {
      if artifact !in artifacts { return Failure(UnknownArtifact); }
      if artifacts[artifact].project != project { return Failure(CrossProject); }
      if artifacts[artifact].deletedAt.None? { return Success({}); }
      var digests := Uses(Tables(), artifact);
      artifacts := artifacts[artifact := artifacts[artifact].(deletedAt := None)];
      RaiseCounts(artifact, digests);
      assert blobs == RestoredDb(old(Tables()), artifact).blobs;
      return Success(digests);
    }

    /** Publishing behind the quota: the new total is at or under the limit. */
    method Publish(block: nat, input: Write, blob: Option<BlobRef>) returns (r: Result<Outcome, Refusal>)
      modifies this
      ensures (Tables(), r) == PublishChecked(old(Tables()), block, input, blob)
      ensures r.Success? && r.value.Created? ==> Total(blobs) <= block
    {
      QuotaHolds(Tables(), block, input, blob);
      var refs := References(blob);
      var projected := ProjectedBytes(blobs, refs);
      var total := TotalBytes(blobs);
      if total > I64_MAX { return Failure(TotalOverflow); }
      if Saturate(total + projected) > block { return Failure(PolicyBlocked); }
      var persisted := PersistPublication(input.(refs := refs));
      r := if persisted.Success? then Success(persisted.value) else Failure(Refusal.Store(persisted.error));
    }
  }
}
