/** What every run of the artifact store keeps. */
module ArtifactInvariant {
  import opened Wrappers
  import opened ArtifactModel

  // --------------------------------------------------------- chains of versions

  /** The current version of `a` is a version of `a`. */
  ghost predicate CurrentOk(versions: map<Id, Version>, a: Id, row: Artifact) {
    row.current.Some? && row.current.value in versions && versions[row.current.value].artifact == a
  }

  /** Version 1 has no parent; any other has the version just below it. */
  ghost predicate ParentOk(versions: map<Id, Version>, row: Version) {
    && row.number >= 1
    && (row.number == 1 <==> row.parent.None?)
    && (row.parent.Some? ==>
          && row.parent.value in versions
          && versions[row.parent.value].artifact == row.artifact
          && versions[row.parent.value].number + 1 == row.number)
  }

  ghost predicate OwnerOk(db: Db, row: Version) {
    row.artifact in db.artifacts && CurrentOk(db.versions, row.artifact, db.artifacts[row.artifact]) &&
    row.number <= db.versions[db.artifacts[row.artifact].current.value].number
  }

  ghost predicate SameSlot(v: Version, w: Version) {
    v.artifact == w.artifact && v.number == w.number
  }

  ghost predicate Chained(db: Db) {
    && (forall a {:trigger CurrentOk(db.versions, a, db.artifacts[a])} | a in db.artifacts ::
      CurrentOk(db.versions, a, db.artifacts[a]))
    && (forall v {:trigger ParentOk(db.versions, db.versions[v])} | v in db.versions ::
      ParentOk(db.versions, db.versions[v]))
    && (forall v {:trigger OwnerOk(db, db.versions[v])} | v in db.versions :: OwnerOk(db, db.versions[v]))
    && (forall v, w {:trigger SameSlot(db.versions[v], db.versions[w])} | v in db.versions && w in db.versions ::
          SameSlot(db.versions[v], db.versions[w]) ==> v == w)
  }

  // ------------------------------------------------------------ reference counts

  predicate IsLive(db: Db, artifact: Id) {
    artifact in db.artifacts && db.artifacts[artifact].deletedAt.None?
  }

  /** The versions of artifacts that are not deleted which link to a digest. */
  ghost function Live(db: Db, digest: Id): set<Id> {
    set v | v in db.versions && LiveLink(db, db.versions[v], digest)
  }

  predicate LiveLink(db: Db, row: Version, digest: Id) {
    digest in row.blobs && IsLive(db, row.artifact)
  }

  /** Every link leads to a stored blob. */
  ghost predicate Stored(db: Db) {
    forall v {:trigger db.versions[v]} | v in db.versions :: db.versions[v].blobs <= db.blobs.Keys
  }

  ghost predicate Bounded(db: Db) {
    forall d {:trigger db.blobs[d]} | d in db.blobs :: db.blobs[d].count <= |Live(db, d)|
  }

  ghost predicate Exact(db: Db) {
    forall d {:trigger db.blobs[d]} | d in db.blobs :: db.blobs[d].count == |Live(db, d)|
  }

  ghost predicate Inv(db: Db) {
    Chained(db) && Stored(db) && Bounded(db)
  }

  // ------------------------------------------------------------------- upserts

  /** `after` is `before` with one more reference to each of `digests`. */
  ghost predicate Counted(before: map<Id, Blob>, after: map<Id, Blob>, digests: set<Id>) {
    && after.Keys == before.Keys + digests
    && (forall d {:trigger after[d]} | d in after ::
          && after[d].count == (if d in before then before[d].count else 0) + (if d in digests then 1 else 0)
          && (d in before ==> after[d].meta == before[d].meta))
  }

  ghost predicate Described(blobs: map<Id, Blob>, refs: seq<BlobRef>) {
    forall i | 0 <= i < |refs| ::
      refs[i].digest in blobs && blobs[refs[i].digest].meta == refs[i].meta && refs[i].meta.bytes <= I64_MAX
  }

  function Digests(refs: seq<BlobRef>): set<Id> {
    set i | 0 <= i < |refs| :: refs[i].digest
  }

  lemma DigestsNext(refs: seq<BlobRef>)
    requires refs != []
    ensures Digests(refs) == Digests(refs[..|refs| - 1]) + {refs[|refs| - 1].digest}
  {
  }

  lemma UpsertCounts(blobs: map<Id, Blob>, s: Linked, ref: BlobRef)
    requires Counted(blobs, s.blobs, s.links) && Upsert(s, ref).Success?
    ensures var t := Upsert(s, ref).value;
            && t.links == s.links + {ref.digest}
            && Counted(blobs, t.blobs, t.links)
            && t.blobs[ref.digest].meta == ref.meta && ref.meta.bytes <= I64_MAX
            && forall d | d in s.blobs :: t.blobs[d].meta == s.blobs[d].meta
  {
  }

  /** However often a digest is listed, a version adds one reference to it. */
  lemma {:induction false} UpsertAllCounts(blobs: map<Id, Blob>, refs: seq<BlobRef>)
    requires UpsertAll(blobs, refs).Success?
    ensures var s := UpsertAll(blobs, refs).value;
            && s.links == Digests(refs)
            && Counted(blobs, s.blobs, s.links)
            && Described(s.blobs, refs)
  {
    if refs != [] {
      var n := |refs| - 1;
      UpsertAllCounts(blobs, refs[..n]);
      UpsertCounts(blobs, UpsertAll(blobs, refs[..n]).value, refs[n]);
      DigestsNext(refs);
      DescribedNext(UpsertAll(blobs, refs[..n]).value.blobs, UpsertAll(blobs, refs).value.blobs, refs);
    }
  }

  lemma DescribedNext(before: map<Id, Blob>, after: map<Id, Blob>, refs: seq<BlobRef>)
    requires refs != [] && Described(before, refs[..|refs| - 1]) && Described(after, refs[|refs| - 1..])
    requires forall d | d in before :: d in after && after[d].meta == before[d].meta
    ensures Described(after, refs)
  {
  }

  /** The references agree with the stored blobs and with each other. */
  ghost predicate Compatible(blobs: map<Id, Blob>, refs: seq<BlobRef>) {
    && (forall i | 0 <= i < |refs| :: refs[i].meta.bytes <= I64_MAX)
    && (forall i | 0 <= i < |refs| :: refs[i].digest in blobs ==> blobs[refs[i].digest].meta == refs[i].meta)
    && (forall i, j | 0 <= i < j < |refs| :: refs[i].digest == refs[j].digest ==> refs[i].meta == refs[j].meta)
  }

  lemma {:induction false} UpsertAllSucceeds(blobs: map<Id, Blob>, refs: seq<BlobRef>)
    ensures UpsertAll(blobs, refs).Success? <==> Compatible(blobs, refs)
  {
    if refs != [] {
      var n := |refs| - 1;
      var front, last := refs[..n], refs[n];
      UpsertAllSucceeds(blobs, front);
      if UpsertAll(blobs, front).Success? {
        UpsertAllCounts(blobs, front);
        UpsertLast(blobs, refs, UpsertAll(blobs, front).value);
      } else {
        assert !Compatible(blobs, refs) by { if Compatible(blobs, refs) { CompatibleFront(blobs, refs); } }
      }
    }
  }

  lemma CompatibleFront(blobs: map<Id, Blob>, refs: seq<BlobRef>)
    requires refs != [] && Compatible(blobs, refs)
    ensures Compatible(blobs, refs[..|refs| - 1])
  {
  }

  lemma UpsertLast(blobs: map<Id, Blob>, refs: seq<BlobRef>, s: Linked)
    requires refs != [] && Compatible(blobs, refs[..|refs| - 1])
    requires s.links == Digests(refs[..|refs| - 1]) && Counted(blobs, s.blobs, s.links)
    requires Described(s.blobs, refs[..|refs| - 1])
    ensures Upsert(s, refs[|refs| - 1]).Success? <==> Compatible(blobs, refs)
  {
  }

  // ------------------------------------------------------------- a new version

  /** The slot a new version takes: the first of a new artifact or the one after the current. */
  ghost predicate NextSlot(db: Db, slot: Slot) {
    if slot.artifact !in db.artifacts then slot.number == 1 && slot.parent.None?
    else
      && CurrentOk(db.versions, slot.artifact, db.artifacts[slot.artifact])
      && slot.parent == db.artifacts[slot.artifact].current
      && slot.number == db.versions[slot.parent.value].number + 1
  }

  lemma CurrentIsHighest(db: Db, a: Id)
    requires Chained(db) && a in db.artifacts
    ensures CurrentOk(db.versions, a, db.artifacts[a])
    ensures Highest(db.versions, a) == db.versions[db.artifacts[a].current.value].number
  {
    assert CurrentOk(db.versions, a, db.artifacts[a]);
    var n := db.versions[db.artifacts[a].current.value].number;
    forall v | v in db.versions && db.versions[v].artifact == a ensures db.versions[v].number <= n {
      assert OwnerOk(db, db.versions[v]);
    }
    assert IsHighest(db.versions, a, n);
    HighestUnique(db.versions, a, n, Highest(db.versions, a));
  }

  lemma ResolvedSlot(db: Db, input: Write)
    requires Chained(db) && Resolve(db, input).Success?
    requires input.existing.None? ==> input.artifactRef !in db.artifacts
    ensures NextSlot(db, Resolve(db, input).value)
    ensures input.existing.Some? ==> IsLive(db, Resolve(db, input).value.artifact)
  {
    if input.existing.Some? { CurrentIsHighest(db, input.existing.value); }
  }

  /** `after` is `db` with version `v` put in `slot` and made current. */
  ghost predicate Appended(db: Db, after: Db, slot: Slot, v: Id, row: Version) {
    && v !in db.versions && after.versions == db.versions[v := row]
    && row.artifact == slot.artifact && row.number == slot.number && row.parent == slot.parent
    && after.artifacts.Keys == db.artifacts.Keys + {slot.artifact}
    && after.artifacts[slot.artifact].current == Some(v)
    && forall a | a in db.artifacts && a != slot.artifact :: after.artifacts[a] == db.artifacts[a]
  }

  lemma AppendCurrent(db: Db, after: Db, slot: Slot, v: Id, row: Version, a: Id)
    requires Chained(db) && Appended(db, after, slot, v, row) && a in after.artifacts
    ensures CurrentOk(after.versions, a, after.artifacts[a])
  {
    if a != slot.artifact { assert CurrentOk(db.versions, a, db.artifacts[a]); }
  }

  lemma AppendParent(db: Db, after: Db, slot: Slot, v: Id, row: Version, w: Id)
    requires Chained(db) && NextSlot(db, slot) && Appended(db, after, slot, v, row) && w in after.versions
    ensures ParentOk(after.versions, after.versions[w])
  {
    if w != v { assert ParentOk(db.versions, db.versions[w]); }
    else if slot.parent.Some? { assert ParentOk(db.versions, db.versions[slot.parent.value]); }
  }

  lemma AppendOwner(db: Db, after: Db, slot: Slot, v: Id, row: Version, w: Id)
    requires Chained(db) && NextSlot(db, slot) && Appended(db, after, slot, v, row) && w in after.versions
    ensures OwnerOk(after, after.versions[w])
  {
    if w != v { assert OwnerOk(db, db.versions[w]); }
  }

  lemma AppendDistinct(db: Db, after: Db, slot: Slot, v: Id, row: Version, w: Id)
    requires Chained(db) && NextSlot(db, slot) && Appended(db, after, slot, v, row) && w in db.versions
    ensures !SameSlot(row, db.versions[w]) && !SameSlot(db.versions[w], row)
  {
    assert OwnerOk(db, db.versions[w]);
  }

  lemma AppendChained(db: Db, after: Db, slot: Slot, v: Id, row: Version)
    requires Chained(db) && NextSlot(db, slot) && Appended(db, after, slot, v, row)
    ensures Chained(after)
  {
    forall a | a in after.artifacts ensures CurrentOk(after.versions, a, after.artifacts[a]) {
      AppendCurrent(db, after, slot, v, row, a);
    }
    forall w | w in after.versions
      ensures ParentOk(after.versions, after.versions[w]) && OwnerOk(after, after.versions[w])
    {
      AppendParent(db, after, slot, v, row, w);
      AppendOwner(db, after, slot, v, row, w);
    }
    forall u, w | u in after.versions && w in after.versions && SameSlot(after.versions[u], after.versions[w])
      ensures u == w
    {
      if u != v && w == v { AppendDistinct(db, after, slot, v, row, u); }
      if w != v && u == v { AppendDistinct(db, after, slot, v, row, w); }
    }
  }

  lemma OwnersLive(db: Db, after: Db, slot: Slot, v: Id, row: Version, w: Id)
    requires Chained(db) && Appended(db, after, slot, v, row) && w in db.versions
    requires IsLive(after, slot.artifact) && (slot.artifact in db.artifacts ==> IsLive(db, slot.artifact))
    ensures IsLive(after, db.versions[w].artifact) == IsLive(db, db.versions[w].artifact)
  {
    assert OwnerOk(db, db.versions[w]);
  }

  lemma LiveNext(db: Db, after: Db, v: Id, row: Version, d: Id)
    requires v !in db.versions && after.versions == db.versions[v := row] && IsLive(after, row.artifact)
    requires forall w | w in db.versions :: LiveLink(after, db.versions[w], d) == LiveLink(db, db.versions[w], d)
    ensures |Live(after, d)| == |Live(db, d)| + (if d in row.blobs then 1 else 0)
  {
    var grown := Live(db, d) + if d in row.blobs then {v} else {};
    forall w ensures w in Live(after, d) <==> w in grown {
      if w in db.versions { assert after.versions[w] == db.versions[w]; }
    }
    assert Live(after, d) == grown;
  }

  /** The links of a version that starts a live artifact, or extends one, are live. */
  lemma AppendLive(db: Db, after: Db, slot: Slot, v: Id, row: Version, d: Id)
    requires Chained(db) && Appended(db, after, slot, v, row)
    requires IsLive(after, slot.artifact) && (slot.artifact in db.artifacts ==> IsLive(db, slot.artifact))
    ensures |Live(after, d)| == |Live(db, d)| + (if d in row.blobs then 1 else 0)
  {
    forall w | w in db.versions ensures LiveLink(after, db.versions[w], d) == LiveLink(db, db.versions[w], d) {
      OwnersLive(db, after, slot, v, row, w);
    }
    LiveNext(db, after, v, row, d);
  }

  lemma AppendBlobs(db: Db, after: Db, slot: Slot, v: Id, row: Version)
    requires Chained(db) && Stored(db) && Appended(db, after, slot, v, row)
    requires IsLive(after, slot.artifact) && (slot.artifact in db.artifacts ==> IsLive(db, slot.artifact))
    requires Counted(db.blobs, after.blobs, row.blobs)
    ensures Stored(after)
    ensures Bounded(db) ==> Bounded(after)
    ensures Exact(db) ==> Exact(after)
  {
    forall d | d in after.blobs
      ensures Bounded(db) ==> after.blobs[d].count <= |Live(after, d)|
      ensures Exact(db) ==> after.blobs[d].count == |Live(after, d)|
    {
      AppendLive(db, after, slot, v, row, d);
      if d !in db.blobs { NoLinks(db, d); }
    }
  }

  lemma NoLinks(db: Db, d: Id)
    requires Stored(db) && d !in db.blobs
    ensures Live(db, d) == {}
  {
  }

  /** What a successful creating write does. */
  lemma WriteAppends(db: Db, input: Write, slot: Slot)
    requires input.existing.Some? ==> slot.artifact in db.artifacts && IsLive(db, slot.artifact)
    requires WriteVersion(db, input, slot).Success?
    ensures var after := WriteVersion(db, input, slot).value;
            var row := Version(slot.artifact, slot.number, slot.parent, input.digest,
              UpsertAll(db.blobs, input.refs).value.links);
            && Appended(db, after, slot, input.versionRef, row)
            && IsLive(after, slot.artifact)
            && Counted(db.blobs, after.blobs, row.blobs)
            && row.blobs == Digests(input.refs)
  {
    UpsertAllCounts(db.blobs, input.refs);
  }

  lemma PersistKeeps(db: Db, input: Write)
    requires Inv(db)
    ensures Inv(Persist(db, input).db)
    ensures Exact(db) ==> Exact(Persist(db, input).db)
  {
    var step := Persist(db, input);
    if step.result.Success? && step.result.value.Created? {
      var slot := Resolve(db, input).value;
      ResolvedSlot(db, input);
      WriteAppends(db, input, slot);
      var row := step.db.versions[input.versionRef];
      AppendChained(db, step.db, slot, input.versionRef, row);
      AppendBlobs(db, step.db, slot, input.versionRef, row);
    }
  }

  // ------------------------------------------------------------ delete and restore

  /** Two tables that differ in deletion dates and reference counts only. */
  ghost predicate SameChains(db: Db, after: Db) {
    && after.versions == db.versions && after.artifacts.Keys == db.artifacts.Keys && after.blobs.Keys == db.blobs.Keys
    && forall a | a in db.artifacts :: after.artifacts[a].current == db.artifacts[a].current
  }

  lemma SameChainsKeep(db: Db, after: Db)
    requires Chained(db) && Stored(db) && SameChains(db, after)
    ensures Chained(after) && Stored(after)
  {
    forall a | a in after.artifacts ensures CurrentOk(after.versions, a, after.artifacts[a]) {
      assert CurrentOk(db.versions, a, db.artifacts[a]);
    }
    forall w | w in after.versions
      ensures ParentOk(after.versions, after.versions[w]) && OwnerOk(after, after.versions[w])
    {
      assert ParentOk(db.versions, db.versions[w]) && OwnerOk(db, db.versions[w]);
    }
    forall u, w | u in after.versions && w in after.versions && SameSlot(after.versions[u], after.versions[w])
      ensures u == w
    {
      assert SameSlot(db.versions[u], db.versions[w]);
    }
  }

  /** Only the liveness of `a` differs. */
  ghost predicate Toggled(db: Db, after: Db, a: Id) {
    && SameChains(db, after) && a in db.artifacts
    && IsLive(db, a) && !IsLive(after, a)
    && forall b | b in db.artifacts && b != a :: after.artifacts[b] == db.artifacts[b]
  }

  lemma ToggledLive(db: Db, after: Db, a: Id, d: Id)
    requires Toggled(db, after, a)
    ensures |Live(db, d)| == |Live(after, d)| + |Held(db.versions, a, d)|
  {
    assert Live(after, d) !! Held(db.versions, a, d);
    assert Live(db, d) == Live(after, d) + Held(db.versions, a, d);
  }

  lemma SameLive(db: Db, after: Db, d: Id)
    requires after.versions == db.versions && after.artifacts == db.artifacts
    ensures Live(after, d) == Live(db, d)
  {
  }

  lemma DeleteLive(db: Db, a: Id, at: int)
    requires a in db.artifacts
    ensures IsLive(db, a) ==> Toggled(db, DeletedDb(db, a, at), a)
    ensures !IsLive(db, a) ==> DeletedDb(db, a, at).artifacts == db.artifacts
  {
  }

  lemma DeleteKeeps(db: Db, project: Id, a: Id, at: int)
    requires Inv(db)
    ensures Inv(SoftDelete(db, project, a, at).db)
  {
    var after := SoftDelete(db, project, a, at).db;
    if SoftDelete(db, project, a, at).result.Success? {
      DeleteLive(db, a, at);
      SameChainsKeep(db, after);
      forall d | d in after.blobs ensures after.blobs[d].count <= |Live(after, d)| {
        if IsLive(db, a) { ToggledLive(db, after, a, d); } else { SameLive(db, after, d); }
        assert db.blobs[d].count <= |Live(db, d)|;
      }
    }
  }

  /** Deleting keeps exact counts exactly when the artifact was live, or nothing
      it links to is counted any more. */
  lemma DeleteKeepsExact(db: Db, project: Id, a: Id, at: int)
    requires Exact(db) && SoftDelete(db, project, a, at).result.Success?
    ensures Exact(SoftDelete(db, project, a, at).db) <==>
            (IsLive(db, a) || forall d | d in Uses(db, a) :: db.blobs[d].count == 0)
  {
    var after := SoftDelete(db, project, a, at).db;
    DeleteLive(db, a, at);
    if IsLive(db, a) {
      forall d | d in after.blobs ensures after.blobs[d].count == |Live(after, d)| {
        ToggledLive(db, after, a, d);
        assert db.blobs[d].count == |Live(db, d)|;
      }
    } else {
      forall d | d in after.blobs
        ensures after.blobs[d].count == |Live(after, d)| <==> (Held(db.versions, a, d) == {} || db.blobs[d].count == 0)
      {
        SameLive(db, after, d);
        assert db.blobs[d].count == |Live(db, d)|;
      }
      forall d | d in Uses(db, a) && Exact(after) ensures db.blobs[d].count == 0 {
        assert after.blobs[d].count == |Live(after, d)|;
      }
    }
  }

  lemma RestoreKeeps(db: Db, project: Id, a: Id)
    requires Inv(db)
    ensures Inv(Restore(db, project, a).db)
    ensures Exact(db) ==> Exact(Restore(db, project, a).db)
  {
    var after := Restore(db, project, a).db;
    if after != db {
      assert Toggled(after, db, a);
      SameChainsKeep(db, after);
      forall d | d in after.blobs
        ensures after.blobs[d].count <= |Live(after, d)|
        ensures Exact(db) ==> after.blobs[d].count == |Live(after, d)|
      {
        ToggledLive(after, db, a, d);
        assert db.blobs[d].count <= |Live(db, d)|;
      }
    }
  }
}
