/** The sleep/wake store as the daemon runs it: each method opens a transaction
    on a copy of the tables, works through it statement by statement, and commits
    or drops it. Proved against the steps of `TrackingModel`. */
module TrackingStore {
  import opened Wrappers
  import opened TrackingModel
  import opened TrackingInvariant
  import Model = TrackingModel
  import Fair = TrackingFairness

  // -------------------------------------------------------- the ordered query

  /** What `ORDER BY ... LIMIT` returns. */
  ghost predicate OrderedWindow(db: Db, host: Host, ids: seq<OpId>) {
    && |ids| <= CANDIDATE_LIMIT
    && (forall i | 0 <= i < |ids| :: Candidate(db, host, ids[i]))
    && (forall i, j | 0 <= i < j < |ids| :: Precedes(db.outbox[ids[i]], db.outbox[ids[j]]))
    && (forall c | Candidate(db, host, c) && c !in ids ::
          |ids| == CANDIDATE_LIMIT && forall i | 0 <= i < |ids| :: Precedes(db.outbox[ids[i]], db.outbox[c]))
  }

  method Candidates(db: Db, host: Host) returns (ids: seq<OpId>)
    requires RevisionsDistinct(db.outbox)
    ensures OrderedWindow(db, host, ids)
  {
    var rest := set id | id in db.outbox && Candidate(db, host, id);
    ids := [];
    while rest != {} && |ids| < CANDIDATE_LIMIT
      invariant |ids| <= CANDIDATE_LIMIT
      invariant forall c | c in rest :: Candidate(db, host, c)
      invariant forall i | 0 <= i < |ids| :: Candidate(db, host, ids[i])
      invariant forall c | Candidate(db, host, c) :: c in rest || c in ids
      invariant forall i, j | 0 <= i < j < |ids| :: Precedes(db.outbox[ids[i]], db.outbox[ids[j]])
      invariant forall i, c | 0 <= i < |ids| && c in rest :: Precedes(db.outbox[ids[i]], db.outbox[c])
      decreases rest
    {
      Fair.FirstExists(db, rest);
      var first :| first in rest && forall c | c in rest :: !Precedes(db.outbox[c], db.outbox[first]);
      forall c | c in rest && c != first ensures Precedes(db.outbox[first], db.outbox[c]) {
        Fair.PrecedesTotal(db, first, c);
      }
      ids := ids + [first];
      rest := rest - {first};
    }
  }

  ghost function Elements(ids: seq<OpId>): (r: set<OpId>)
    ensures forall x :: x in r <==> x in ids
    ensures |r| <= |ids|
  {
    if ids == [] then {} else Elements(ids[..|ids| - 1]) + {ids[|ids| - 1]}
  }

  lemma {:induction false} ElementsOfDistinct(ids: seq<OpId>)
    requires forall i, j | 0 <= i < j < |ids| :: ids[i] != ids[j]
    ensures |Elements(ids)| == |ids|
  {
    if ids != [] {
      ElementsOfDistinct(ids[..|ids| - 1]);
    }
  }

  lemma ChosenIsUnique(db: Db, host: Host, latest: map<ThreadId, Observation>, c: OpId, d: OpId)
    requires RevisionsDistinct(db.outbox) && Chosen(db, host, latest, c) && Chosen(db, host, latest, d)
    ensures c == d
  {
    if c != d { Fair.PrecedesTotal(db, c, d); }
  }

  lemma FirstEligibleIsChosen(db: Db, host: Host, latest: map<ThreadId, Observation>, ids: seq<OpId>, i: nat)
    requires OrderedWindow(db, host, ids) && i < |ids|
    requires Eligible(db, latest, ids[i]) && forall k | 0 <= k < i :: !Eligible(db, latest, ids[k])
    ensures Chosen(db, host, latest, ids[i])
  {
    var id := ids[i];
    forall c | c in Before(db, host, id) ensures c in ids[..i] {
      if c in ids {
        var k :| 0 <= k < |ids| && ids[k] == c;
        assert !(i <= k);
        assert c == ids[..i][k];
      }
    }
    Fair.SubsetSize(Before(db, host, id), Elements(ids[..i]));
  }

  lemma NoneEligibleNoneChosen(db: Db, host: Host, latest: map<ThreadId, Observation>, ids: seq<OpId>, c: OpId)
    requires OrderedWindow(db, host, ids)
    requires forall k | 0 <= k < |ids| :: !Eligible(db, latest, ids[k])
    ensures !Chosen(db, host, latest, c)
  {
    if Candidate(db, host, c) && c !in ids {
      assert forall i, j | 0 <= i < j < |ids| :: ids[i] != ids[j];
      ElementsOfDistinct(ids);
      Fair.SubsetSize(Elements(ids), Before(db, host, c));
    }
  }

  // ------------------------------------------------------------------ the store

  class Store {
    var db: Db

    ghost predicate Valid()
      reads this
    {
      Inv(db)
    }

    constructor ()
      ensures Valid() && db == EMPTY_DB
    {
      db := EMPTY_DB;
    }

    method Bind(agent: AgentId, host: Host, thread: ThreadId, op: OpId) returns (ok: bool)
      requires Valid()
      modifies this
      ensures Valid()
      ensures db == Apply(old(db), BindStep(agent, host, thread, op))
      ensures ok == Model.Bind(old(db), agent, host, thread, op).Success?
    {
      ApplyKeeps(db, BindStep(agent, host, thread, op));
      var tx := BindRow(db, agent, host, thread);
      if tx.Failure? { return false; }
      if NeedsSync(tx.value, agent) {
        tx := Enqueue(tx.value, agent, op);
        if tx.Failure? { return false; }
      }
      db := tx.value;
      return true;
    }

    method Set(c: Choice) returns (r: Result<View, Error>)
      requires Valid()
      modifies this
      ensures Valid()
      ensures db == Apply(old(db), SetStep(c))
      ensures match Model.Set(old(db), c)
              case Success((_, view)) => r == Success(view)
              case Failure(e) => r == Failure(e)
    {
      ApplyKeeps(db, SetStep(c));
      if !c.requestIsUuid { return Failure(InvalidRequest); }
      if (c.actor, c.request) in db.requests {
        var receipt := db.requests[(c.actor, c.request)];
        if receipt.canonical == c.canonical { return Success(receipt.result); }
        return Failure(EnvelopeMismatch);
      }
      if c.expected.Some? && c.expected.value != KnownRevision(db, c.agent) { return Failure(RevisionConflict); }
      var tx := WithRow(db, c.agent, c.host);
      if Changes(db, c) {
        tx := RecordChange(tx, c.agent, c.dormant, ChosenSync(db, c));
        var queued := Enqueue(tx, c.agent, c.request);
        if queued.Failure? { return Failure(queued.error); }
        tx := queued.value;
      }
      var view := ViewOf(tx, c.agent);
      db := tx.(requests := tx.requests[(c.actor, c.request) := Receipt(c.canonical, view.value)]);
      return Success(view.value);
    }

    method Sync(host: Host, observations: seq<Observation>, acks: seq<Confirmation>, now: int)
      returns (r: Result<Option<Command>, Error>)
      requires Valid()
      modifies this
      ensures Valid()
      ensures db == Apply(old(db), SyncStep(host, observations, acks, now))
      ensures match Model.Sync(old(db), host, observations, acks, now)
              case Success((_, sent)) => r == Success(sent)
              case Failure(e) => r == Failure(e)
    {
      ApplyKeeps(db, SyncStep(host, observations, acks, now));
      if !ValidExchange(host, observations, acks) { return Failure(InvalidRequest); }
      var latest := Latest(observations);
      var confirmed := Confirmations(db, host, latest, acks);
      if confirmed.Failure? { return Failure(confirmed.error); }
      ConfirmAllKeeps(Exchange(db, map[]), host, latest, acks);
      var observed := Observations(confirmed.value, host, observations);
      if observed.Failure? { return Failure(observed.error); }
      ObserveAllKeeps(confirmed.value, host, observations);
      var tx, sent := Selection(observed.value.db, host, latest, now);
      db := tx;
      return Success(sent);
    }
  }

  method Confirmations(db: Db, host: Host, latest: map<ThreadId, Observation>, acks: seq<Confirmation>)
    returns (r: Result<Exchange, Error>)
    ensures r == ConfirmAll(Exchange(db, map[]), host, latest, acks)
  {
    var x := Exchange(db, map[]);
    for i := 0 to |acks|
      invariant ConfirmAll(Exchange(db, map[]), host, latest, acks[..i]) == Success(x)
    {
      assert acks[..i + 1][..i] == acks[..i];
      var y := Confirm(x, host, latest, acks[i]);
      if y.Failure? {
        ConfirmFails(Exchange(db, map[]), host, latest, acks, i + 1);
        return y;
      }
      x := y.value;
    }
    assert acks[..|acks|] == acks;
    return Success(x);
  }

  lemma {:induction false} ConfirmFails(
    x: Exchange, host: Host, latest: map<ThreadId, Observation>, acks: seq<Confirmation>, i: nat)
    requires i <= |acks| && ConfirmAll(x, host, latest, acks[..i]).Failure?
    ensures ConfirmAll(x, host, latest, acks) == ConfirmAll(x, host, latest, acks[..i])
    decreases |acks|
  {
    var n := |acks| - 1;
    if i <= n {
      assert acks[..n][..i] == acks[..i];
      ConfirmFails(x, host, latest, acks[..n], i);
    } else {
      assert acks[..i] == acks;
    }
  }

  method Observations(x: Exchange, host: Host, observations: seq<Observation>) returns (r: Result<Exchange, Error>)
    requires Inv(x.db)
    ensures r == ObserveAll(x, host, observations)
  {
    var y := x;
    for i := 0 to |observations|
      invariant ObserveAll(x, host, observations[..i]) == Success(y)
      invariant Inv(y.db)
    {
      var o := observations[i];
      assert observations[..i + 1][..i] == observations[..i];
      if o.sequence > MAX_I64 {
        ObserveFails(x, host, observations, i + 1);
        return Failure(InvalidRequest);
      }
      ObserveKeeps(y, host, o);
      if exists a | a in y.db.rows :: Listens(y.db, host, o, a) {
        var agent :| agent in y.db.rows && Listens(y.db, host, o, agent);
        assert forall a | Listens(y.db, host, o, a) :: a == agent;
        y := ObserveAs(y, agent, o);
      }
    }
    assert observations[..|observations|] == observations;
    return Success(y);
  }

  lemma {:induction false} ObserveFails(x: Exchange, host: Host, observations: seq<Observation>, i: nat)
    requires i <= |observations| && ObserveAll(x, host, observations[..i]).Failure?
    ensures ObserveAll(x, host, observations) == ObserveAll(x, host, observations[..i])
    decreases |observations|
  {
    var n := |observations| - 1;
    if i <= n {
      assert observations[..n][..i] == observations[..i];
      ObserveFails(x, host, observations[..n], i);
    } else {
      assert observations[..i] == observations;
    }
  }

  /** One delivery at most: the first eligible candidate. */
  method Selection(db: Db, host: Host, latest: map<ThreadId, Observation>, now: int)
    returns (next: Db, sent: Option<Command>)
    requires Inv(db)
    ensures (next, sent) == Select(db, host, latest, now)
  {
    var ids := Candidates(db, host);
    for i := 0 to |ids|
      invariant forall k | 0 <= k < i :: !Eligible(db, latest, ids[k])
    {
      if Eligible(db, latest, ids[i]) {
        FirstEligibleIsChosen(db, host, latest, ids, i);
        forall c | Chosen(db, host, latest, c) ensures c == ids[i] {
          ChosenIsUnique(db, host, latest, c, ids[i]);
        }
        return Deliver(db, ids[i], now), Some(CommandFor(db, ids[i]));
      }
    }
    forall c ensures !Chosen(db, host, latest, c) {
      NoneEligibleNoneChosen(db, host, latest, ids, c);
    }
    return db, None;
  }
}
