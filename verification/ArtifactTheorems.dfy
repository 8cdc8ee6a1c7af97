/** Whole runs of the artifact store: histories, replays, counts and the quota. */
module ArtifactTheorems {
  import opened Wrappers
  import opened ArtifactModel
  import opened ArtifactInvariant

  lemma ApplyKeeps(db: Db, op: Op)
    requires Inv(db)
    ensures Inv(Apply(db, op))
  {
    match op
    case Publish(input) => PersistKeeps(db, input);
    case Delete(project, a, at) => DeleteKeeps(db, project, a, at);
    case Revive(project, a) => RestoreKeeps(db, project, a);
  }

  /** Every run keeps the chains, and no count exceeds the number of live links. */
  lemma {:induction false} RunKeeps(db: Db, ops: seq<Op>)
    requires Inv(db)
    ensures Inv(Run(db, ops))
    decreases ops
  {
    if ops != [] {
      ApplyKeeps(db, ops[0]);
      RunKeeps(Apply(db, ops[0]), ops[1..]);
    }
  }

  // ------------------------------------------------------------ exact counting

  /** Deletions only ever hit live artifacts. */
  ghost predicate DeletesLive(db: Db, ops: seq<Op>)
    decreases ops
  {
    ops == [] ||
    ((ops[0].Delete? && SoftDelete(db, ops[0].project, ops[0].artifact, ops[0].at).result.Success?
      ==> IsLive(db, ops[0].artifact))
     && DeletesLive(Apply(db, ops[0]), ops[1..]))
  }

  lemma ApplyKeepsExact(db: Db, op: Op)
    requires Inv(db) && Exact(db)
    requires op.Delete? && SoftDelete(db, op.project, op.artifact, op.at).result.Success? ==> IsLive(db, op.artifact)
    ensures Exact(Apply(db, op))
  {
    match op
    case Publish(input) => PersistKeeps(db, input);
    case Delete(project, a, at) =>
      if SoftDelete(db, project, a, at).result.Success? { DeleteKeepsExact(db, project, a, at); }
    case Revive(project, a) => RestoreKeeps(db, project, a);
  }

  lemma {:induction false} RunKeepsExact(db: Db, ops: seq<Op>)
    requires Inv(db) && Exact(db) && DeletesLive(db, ops)
    ensures Exact(Run(db, ops))
    decreases ops
  {
    if ops != [] {
      ApplyKeeps(db, ops[0]);
      ApplyKeepsExact(db, ops[0]);
      RunKeepsExact(Apply(db, ops[0]), ops[1..]);
    }
  }

  /** What holds of a store that started empty. */
  lemma Reachable(ops: seq<Op>)
    ensures Inv(Run(EMPTY, ops))
    ensures DeletesLive(EMPTY, ops) ==> Exact(Run(EMPTY, ops))
  {
    RunKeeps(EMPTY, ops);
    if DeletesLive(EMPTY, ops) { RunKeepsExact(EMPTY, ops); }
  }

  /** Restoring undoes a deletion exactly when no count was cut off at zero. */
  lemma RestoreUndoesDelete(db: Db, project: Id, a: Id, at: int)
    requires SoftDelete(db, project, a, at).result.Success? && IsLive(db, a)
    ensures Restore(SoftDelete(db, project, a, at).db, project, a).db == db <==>
            forall d | d in db.blobs :: db.blobs[d].count >= |Held(db.versions, a, d)|
  {
  }

  /** With exact counts it always does. */
  lemma RestoreUndoesDeleteExact(db: Db, project: Id, a: Id, at: int)
    requires Exact(db) && SoftDelete(db, project, a, at).result.Success? && IsLive(db, a)
    ensures Restore(SoftDelete(db, project, a, at).db, project, a).db == db
  {
    forall d | d in db.blobs ensures db.blobs[d].count >= |Held(db.versions, a, d)| {
      DeleteLive(db, a, at);
      ToggledLive(db, DeletedDb(db, a, at), a, d);
    }
    RestoreUndoesDelete(db, project, a, at);
  }

  /** First publications of artifacts 1 and 2, both of blob 7. */
  const SHARED_REF: BlobRef := BlobRef(7, Meta(0, 5, 0))

  function FirstWrite(a: Id): Write {
    Write(a, None, 10 + a, Key(0, a), 0, None, true, 0, Receipt(a, 10 + a, 0, 0), [SHARED_REF], true)
  }

  lemma FirstLinks(blobs: map<Id, Blob>)
    requires blobs == map[] || (7 in blobs && blobs[7].meta == SHARED_REF.meta)
    ensures UpsertAll(blobs, [SHARED_REF]) ==
            Success(Linked(blobs[7 := Blob(SHARED_REF.meta, if 7 in blobs then blobs[7].count + 1 else 1)], {7}))
  {
    assert [SHARED_REF][..0] == [];
    assert UpsertAll(blobs, []) == Success(Linked(blobs, {}));
    assert {} + {7} == {7};
  }

  /** Artifact 1 deleted since then or not, and blob 7 counted so many times. */
  function Shared(deletedAt: Option<int>, count: nat): Db {
    Db(map[1 := Artifact(0, 0, Some(11), deletedAt), 2 := Artifact(0, 0, Some(12), None)],
       map[11 := Version(1, 1, None, 0, {7}), 12 := Version(2, 1, None, 0, {7})],
       map[7 := Blob(Meta(0, 5, 0), count)],
       map[Key(0, 1) := Publication(0, 1, 11, Receipt(1, 11, 0, 0)),
         Key(0, 2) := Publication(0, 2, 12, Receipt(2, 12, 0, 0))])
  }

  lemma SharedPublished()
    ensures Apply(Apply(EMPTY, Publish(FirstWrite(1))), Publish(FirstWrite(2))) == Shared(None, 2)
  {
    FirstLinks(map[]);
    FirstLinks(map[7 := Blob(SHARED_REF.meta, 1)]);
  }

  lemma SharedDeleted(deletedAt: Option<int>, count: nat, at: int)
    ensures Apply(Shared(deletedAt, count), Delete(0, 1, at)) ==
            Shared(if deletedAt.None? then Some(at) else deletedAt, if count > 0 then count - 1 else 0)
  {
    assert Held(Shared(deletedAt, count).versions, 1, 7) == {11};
  }

  lemma SharedLive(deletedAt: Option<int>, count: nat)
    ensures Live(Shared(deletedAt, count), 7) == if deletedAt.None? then {11, 12} else {12}
  {
  }

  lemma RunTwo(db: Db, first: Op, second: Op)
    ensures Run(db, [first, second]) == Apply(Apply(db, first), second)
  {
    assert [first, second][1..] == [second] && [second][1..] == [];
    assert Run(Apply(db, first), [second]) == Apply(Apply(db, first), second);
  }

  lemma {:induction false} RunConcat(db: Db, a: seq<Op>, b: seq<Op>)
    ensures Run(db, a + b) == Run(Run(db, a), b)
    decreases a
  {
    if a == [] {
      assert a + b == b;
    } else {
      RunConcat(Apply(db, a[0]), a[1..], b);
      assert (a + b)[1..] == a[1..] + b;
    }
  }

  /** Two artifacts are published with one blob. Deleting the first of them twice
      leaves the blob uncounted while the other still links to it. */
  lemma SecondDeleteLosesBlob()
    ensures var published := [Publish(FirstWrite(1)), Publish(FirstWrite(2))];
            var once := Run(EMPTY, published + [Delete(0, 1, 100)]);
            var twice := Run(EMPTY, published + [Delete(0, 1, 100), Delete(0, 1, 200)]);
            && Exact(once) && 7 in once.blobs && once.blobs[7].count == 1
            && !Exact(twice) && 7 in twice.blobs && twice.blobs[7].count == 0 && Live(twice, 7) == {12}
  {
    var published := [Publish(FirstWrite(1)), Publish(FirstWrite(2))];
    RunTwo(EMPTY, published[0], published[1]);
    SharedPublished();
    RunConcat(EMPTY, published, [Delete(0, 1, 100)]);
    RunConcat(EMPTY, published, [Delete(0, 1, 100), Delete(0, 1, 200)]);
    RunTwo(Shared(None, 2), Delete(0, 1, 100), Delete(0, 1, 200));
    assert [Delete(0, 1, 100)][1..] == [];
    SharedDeleted(None, 2, 100);
    SharedDeleted(Some(100), 1, 200);
    SharedLive(Some(100), 1);
    SharedLive(Some(100), 0);
  }

  // -------------------------------------------------------------------- histories

  /** A version and its ancestors, oldest first. */
  ghost function History(versions: map<Id, Version>, v: Id): seq<Id>
    requires v in versions && forall w {:trigger ParentOk(versions, versions[w])} | w in versions ::
            ParentOk(versions, versions[w])
    decreases versions[v].number
  {
    assert ParentOk(versions, versions[v]);
    if versions[v].parent.None? then [v] else History(versions, versions[v].parent.value) + [v]
  }

  lemma {:induction false} HistoryNumbers(versions: map<Id, Version>, v: Id)
    requires v in versions && forall w {:trigger ParentOk(versions, versions[w])} | w in versions ::
            ParentOk(versions, versions[w])
    ensures var h := History(versions, v);
            && |h| == versions[v].number
            && h[|h| - 1] == v
            && (forall k | 0 <= k < |h| ::
              h[k] in versions && versions[h[k]].artifact == versions[v].artifact && versions[h[k]].number == k + 1)
            && (forall k | 0 < k < |h| :: versions[h[k]].parent == Some(h[k - 1]))
    decreases versions[v].number
  {
    assert ParentOk(versions, versions[v]);
    if versions[v].parent.Some? { HistoryNumbers(versions, versions[v].parent.value); }
  }

  /** The versions of an artifact are exactly the ancestors of its current one,
      numbered 1, 2, … without a gap. */
  lemma OneChain(db: Db, a: Id, v: Id)
    requires Chained(db) && a in db.artifacts
    ensures CurrentOk(db.versions, a, db.artifacts[a])
    ensures var h := History(db.versions, db.artifacts[a].current.value);
            && |h| == db.versions[db.artifacts[a].current.value].number
            && (forall k | 0 <= k < |h| :: h[k] in db.versions && db.versions[h[k]].number == k + 1)
            && (forall k | 0 < k < |h| :: db.versions[h[k]].parent == Some(h[k - 1]))
            && (v in h <==> v in db.versions && db.versions[v].artifact == a)
  {
    assert CurrentOk(db.versions, a, db.artifacts[a]);
    var c := db.artifacts[a].current.value;
    var h := History(db.versions, c);
    HistoryNumbers(db.versions, c);
    if v in db.versions && db.versions[v].artifact == a {
      assert OwnerOk(db, db.versions[v]) && ParentOk(db.versions, db.versions[v]);
      var w := h[db.versions[v].number - 1];
      assert SameSlot(db.versions[v], db.versions[w]);
    }
  }

  // ---------------------------------------------------------------------- replays

  lemma {:induction false} PublicationsKept(db: Db, ops: seq<Op>, key: Key)
    requires key in db.publications
    ensures key in Run(db, ops).publications && Run(db, ops).publications[key] == db.publications[key]
    decreases ops
  {
    if ops != [] { PublicationsKept(Apply(db, ops[0]), ops[1..], key); }
  }

  /** After a publication was accepted, and whatever happened since, another
      write under its key changes nothing: the same content gets the original
      receipt, other content is refused. */
  lemma ReplayIsIdle(db: Db, first: Write, ops: seq<Op>, second: Write)
    requires Persist(db, first).result.Success?
    requires ValidWrite(second) && second.key == first.key
    ensures var later := Run(Persist(db, first).db, ops);
            && Persist(later, second).db == later
            && Persist(later, second).result ==
                 if second.digest == first.digest then Success(Replayed(Persist(db, first).result.value.receipt))
                 else Failure(IdempotencyConflict)
  {
    PublicationsKept(Persist(db, first).db, ops, first.key);
  }

  /** Versions and their contents are never rewritten. */
  lemma {:induction false} VersionsKept(db: Db, ops: seq<Op>, v: Id)
    requires v in db.versions
    ensures v in Run(db, ops).versions && Run(db, ops).versions[v] == db.versions[v]
    decreases ops
  {
    if ops != [] { VersionsKept(Apply(db, ops[0]), ops[1..], v); }
  }

  // ------------------------------------------------------------------------- quota

  const U64_MAX: nat := 0xFFFF_FFFF_FFFF_FFFF

  function Saturate(n: nat): nat { if n > U64_MAX then U64_MAX else n }

  function CountedBytes(blob: Blob): nat { if blob.count > 0 then blob.meta.bytes else 0 }

  ghost function Sum(blobs: map<Id, Blob>, keys: set<Id>): nat
    requires keys <= blobs.Keys
    decreases keys
  {
    if keys == {} then 0
    else
      var d :| d in keys;
      CountedBytes(blobs[d]) + Sum(blobs, keys - {d})
  }

  /** The bytes of the blobs that are referenced at all. */
  ghost function Total(blobs: map<Id, Blob>): nat { Sum(blobs, blobs.Keys) }

  lemma {:induction false} SumSplit(blobs: map<Id, Blob>, keys: set<Id>, d: Id)
    requires keys <= blobs.Keys && d in keys
    ensures Sum(blobs, keys) == CountedBytes(blobs[d]) + Sum(blobs, keys - {d})
    decreases keys
  {
    var e :| e in keys && Sum(blobs, keys) == CountedBytes(blobs[e]) + Sum(blobs, keys - {e});
    if e != d {
      SumSplit(blobs, keys - {e}, d);
      SumSplit(blobs, keys - {d}, e);
      assert keys - {e} - {d} == keys - {d} - {e};
    }
  }

  lemma {:induction false} SumSame(a: map<Id, Blob>, b: map<Id, Blob>, keys: set<Id>)
    requires keys <= a.Keys && keys <= b.Keys && forall k | k in keys :: a[k] == b[k]
    ensures Sum(a, keys) == Sum(b, keys)
    decreases keys
  {
    if keys != {} {
      var d :| d in keys;
      SumSplit(a, keys, d);
      SumSplit(b, keys, d);
      SumSame(a, b, keys - {d});
    }
  }

  lemma TotalUpdate(blobs: map<Id, Blob>, d: Id, blob: Blob)
    ensures Total(blobs[d := blob])
            == Total(blobs) + CountedBytes(blob) - (if d in blobs then CountedBytes(blobs[d]) else 0)
  {
    var after := blobs[d := blob];
    SumSplit(after, after.Keys, d);
    assert after.Keys - {d} == blobs.Keys - {d};
    SumSame(after, blobs, blobs.Keys - {d});
    if d in blobs { SumSplit(blobs, blobs.Keys, d); } else { assert blobs.Keys - {d} == blobs.Keys; }
  }

  predicate Uncounted(blobs: map<Id, Blob>, d: Id) {
    d !in blobs || blobs[d].count == 0
  }

  /** The bytes the references would add, as the service projects them. */
  function Projected(blobs: map<Id, Blob>, refs: seq<BlobRef>): nat {
    if refs == [] then 0
    else
      var ref := refs[|refs| - 1];
      Projected(blobs, refs[..|refs| - 1]) + if Uncounted(blobs, ref.digest) then ref.meta.bytes else 0
  }

  lemma UpsertTotal(blobs: map<Id, Blob>, s: Linked, ref: BlobRef)
    requires Counted(blobs, s.blobs, s.links) && Upsert(s, ref).Success?
    ensures Total(Upsert(s, ref).value.blobs)
            <= Total(s.blobs) + if Uncounted(blobs, ref.digest) then ref.meta.bytes else 0
  {
    var d := ref.digest;
    TotalUpdate(s.blobs, d, Upsert(s, ref).value.blobs[d]);
  }

  /** The projection never falls short. */
  lemma {:induction false} ProjectionCovers(blobs: map<Id, Blob>, refs: seq<BlobRef>)
    requires UpsertAll(blobs, refs).Success?
    ensures Total(UpsertAll(blobs, refs).value.blobs) <= Total(blobs) + Projected(blobs, refs)
  {
    if refs != [] {
      var n := |refs| - 1;
      ProjectionCovers(blobs, refs[..n]);
      UpsertAllCounts(blobs, refs[..n]);
      UpsertTotal(blobs, UpsertAll(blobs, refs[..n]).value, refs[n]);
    }
  }

  datatype Refusal = PolicyBlocked | TotalOverflow | Store(error: Error)

  /** The references of a publication: the one blob its payload names, or none. */
  function References(blob: Option<BlobRef>): seq<BlobRef> { if blob.Some? then [blob.value] else [] }

  /** Publishing behind the quota; sums saturate at the largest 64-bit value. */
  ghost function PublishChecked(
    db: Db, block: nat, input: Write, blob: Option<BlobRef>): (Db, Result<Outcome, Refusal>) {
    var refs := References(blob);
    if Total(db.blobs) > I64_MAX then (db, Failure(TotalOverflow))
    else if Saturate(Total(db.blobs) + Saturate(Projected(db.blobs, refs))) > block then (db, Failure(PolicyBlocked))
    else
      var step := Persist(db, input.(refs := refs));
      (step.db, if step.result.Success? then Success(step.result.value) else Failure(Store(step.result.error)))
  }

  lemma OneReference(blob: BlobRef)
    ensures [blob][..0] == []
  {
  }

  /** An accepted publication leaves the referenced bytes at or under any limit. */
  lemma QuotaHolds(db: Db, block: nat, input: Write, blob: Option<BlobRef>)
    ensures var (after, result) := PublishChecked(db, block, input, blob);
            result.Success? && result.value.Created? ==> Total(after.blobs) <= block
  {
    var (after, result) := PublishChecked(db, block, input, blob);
    if result.Success? && result.value.Created? {
      ProjectionCovers(db.blobs, References(blob));
      UpsertAllCounts(db.blobs, References(blob));
      if blob.Some? { OneReference(blob.value); }
    }
  }
}
