/** Fair delivery: an uncertain order is repeated at least once in as many
    exchanges as its host has deliverable orders, counting those exchanges at
    which fewer candidates than the window holds are parked before it. */
module TrackingFairness {
  import opened Wrappers
  import opened TrackingModel
  import opened TrackingInvariant
  import opened TrackingHistory

  // ------------------------------------------------- the order of candidates

  lemma PrecedesTransitive(a: Operation, b: Operation, c: Operation)
    requires Precedes(a, b) && Precedes(b, c)
    ensures Precedes(a, c)
  {
  }

  lemma PrecedesTotal(db: Db, a: OpId, b: OpId)
    requires RevisionsDistinct(db.outbox) && a in db.outbox && b in db.outbox && a != b
    ensures Precedes(db.outbox[a], db.outbox[b]) || Precedes(db.outbox[b], db.outbox[a])
  {
    assert db.outbox[a].revision != db.outbox[b].revision;
  }

  lemma {:induction false} FirstExists(db: Db, ids: set<OpId>)
    requires ids != {} && forall id | id in ids :: id in db.outbox
    ensures exists m | m in ids :: forall id | id in ids :: !Precedes(db.outbox[id], db.outbox[m])
    decreases ids
  {
    var x :| x in ids;
    if ids == {x} {
      assert !Precedes(db.outbox[x], db.outbox[x]);
    } else {
      var rest := ids - {x};
      assert ids == rest + {x};
      FirstExists(db, rest);
      var m :| m in rest && forall id | id in rest :: !Precedes(db.outbox[id], db.outbox[m]);
      if Precedes(db.outbox[x], db.outbox[m]) {
        forall id | id in ids ensures !Precedes(db.outbox[id], db.outbox[x]) {
          if id in rest && Precedes(db.outbox[id], db.outbox[x]) {
            PrecedesTransitive(db.outbox[id], db.outbox[x], db.outbox[m]);
          }
        }
      } else {
        assert forall id | id in ids :: id == x || id in rest;
      }
    }
  }

  lemma SubsetSize<T>(a: set<T>, b: set<T>)
    requires a <= b
    ensures |a| <= |b|
    ensures a != b ==> |a| < |b|
  {
    assert b == a + (b - a);
    if a != b { assert b - a != {}; }
  }

  /** The candidates before `x` that cannot leave yet. */
  ghost function Parked(db: Db, host: Host, latest: map<ThreadId, Observation>, x: OpId): set<OpId>
    requires x in db.outbox
  {
    set c | c in Before(db, host, x) && !Eligible(db, latest, c)
  }

  /** If fewer candidates than the window holds are parked before an eligible one,
      something is chosen, and what is chosen is that one or stands before it. */
  lemma EligibleGetsServed(db: Db, host: Host, latest: map<ThreadId, Observation>, id: OpId)
    requires RevisionsDistinct(db.outbox) && Candidate(db, host, id) && Eligible(db, latest, id)
    requires |Parked(db, host, latest, id)| < CANDIDATE_LIMIT
    ensures exists c :: Chosen(db, host, latest, c)
    ensures forall c | Chosen(db, host, latest, c) :: c == id || Precedes(db.outbox[c], db.outbox[id])
  {
    var ready := {id} + set c | c in Before(db, host, id) && Eligible(db, latest, c);
    FirstExists(db, ready);
    var m :| m in ready && forall c | c in ready :: !Precedes(db.outbox[c], db.outbox[m]);
    forall c | c in Before(db, host, m) ensures c in Parked(db, host, latest, id) && !Eligible(db, latest, c) {
      if m != id { PrecedesTransitive(db.outbox[c], db.outbox[m], db.outbox[id]); }
    }
    SubsetSize(Before(db, host, m), Parked(db, host, latest, id));
    assert Chosen(db, host, latest, m);
    forall c | Chosen(db, host, latest, c) && c != id ensures Precedes(db.outbox[c], db.outbox[id]) {
      PrecedesTotal(db, c, id);
    }
  }

  /** Exactly when an uncertain order is repeated by an exchange of its host. */
  lemma RepeatedExactly(db: Db, host: Host, latest: map<ThreadId, Observation>, now: int, id: OpId)
    requires Inv(db) && id in db.outbox && db.outbox[id].phase == InFlight && db.outbox[id].host == host
    ensures (Select(db, host, latest, now).1.Some? && Select(db, host, latest, now).1.value.operation == id)
            <==> (&& |Before(db, host, id)| < CANDIDATE_LIMIT
                  && forall c | c in Before(db, host, id) :: !Eligible(db, latest, c))
  {
    InFlightIsCandidate(db, id);
    SubsetSize(Parked(db, host, latest, id), Before(db, host, id));
    if |Before(db, host, id)| < CANDIDATE_LIMIT {
      EligibleGetsServed(db, host, latest, id);
      if forall c | c in Before(db, host, id) :: !Eligible(db, latest, c) {
        assert forall c | Chosen(db, host, latest, c) :: c == id || c in Before(db, host, id);
      }
    }
  }

  /** With the window full of parked candidates, an order behind them is not repeated. */
  lemma NoRoomNoRepeat(db: Db, host: Host, latest: map<ThreadId, Observation>, now: int, x: OpId)
    requires Inv(db) && x in db.outbox && db.outbox[x].phase == InFlight && db.outbox[x].host == host
    requires |Parked(db, host, latest, x)| >= CANDIDATE_LIMIT
    ensures !(Select(db, host, latest, now).1.Some? && Select(db, host, latest, now).1.value.operation == x)
  {
    RepeatedExactly(db, host, latest, now, x);
    SubsetSize(Parked(db, host, latest, x), Before(db, host, x));
  }

  lemma InFlightIsCandidate(db: Db, id: OpId)
    requires Inv(db) && id in db.outbox && db.outbox[id].phase == InFlight
    ensures Candidate(db, db.outbox[id].host, id)
  {
    assert OpLinked(db.rows, db.outbox[id]);
  }

  // --------------------------------------------------- what an exchange moves

  ghost predicate OpStill(o: Operation, p: Operation) {
    && p.host == o.host && p.revision == o.revision && p.lastAttempt == o.lastAttempt
    && (Deliverable(p.phase) ==> Deliverable(o.phase))
    && (p.phase == InFlight ==> p == o)
  }

  /** No order was delivered; those added are new. */
  ghost predicate Still(outbox: Outbox, next: Outbox) {
    outbox.Keys <= next.Keys && forall id {:trigger next[id]} | id in outbox :: OpStill(outbox[id], next[id])
  }

  lemma ConfirmStill(x: Exchange, host: Host, latest: map<ThreadId, Observation>, ack: Confirmation)
    requires Confirm(x, host, latest, ack).Success?
    ensures Still(x.db.outbox, Confirm(x, host, latest, ack).value.db.outbox)
  {
  }

  lemma {:induction false} ConfirmAllStill(
    x: Exchange, host: Host, latest: map<ThreadId, Observation>, acks: seq<Confirmation>)
    requires ConfirmAll(x, host, latest, acks).Success?
    ensures Still(x.db.outbox, ConfirmAll(x, host, latest, acks).value.db.outbox)
  {
    if acks != [] {
      var n := |acks| - 1;
      ConfirmAllStill(x, host, latest, acks[..n]);
      ConfirmStill(ConfirmAll(x, host, latest, acks[..n]).value, host, latest, acks[n]);
    }
  }

  lemma {:induction false} ObserveAllStill(x: Exchange, host: Host, observations: seq<Observation>)
    requires ObserveAll(x, host, observations).Success?
    ensures ObserveAll(x, host, observations).value.db.outbox == x.db.outbox
  {
    if observations != [] {
      ObserveAllStill(x, host, observations[..|observations| - 1]);
    }
  }

  lemma {:induction false} ConfirmAllKeys(
    x: Exchange, host: Host, latest: map<ThreadId, Observation>, acks: seq<Confirmation>)
    requires ConfirmAll(x, host, latest, acks).Success?
    ensures ConfirmAll(x, host, latest, acks).value.db.outbox.Keys == x.db.outbox.Keys
  {
    if acks != [] {
      ConfirmAllKeys(x, host, latest, acks[..|acks| - 1]);
    }
  }

  lemma AbsorbKeys(db: Db, host: Host, observations: seq<Observation>, acks: seq<Confirmation>)
    requires Absorb(db, host, observations, acks).Success?
    ensures Absorb(db, host, observations, acks).value.outbox.Keys == db.outbox.Keys
  {
    var x := Exchange(db, map[]);
    ConfirmAllKeys(x, host, Latest(observations), acks);
    ObserveAllStill(ConfirmAll(x, host, Latest(observations), acks).value, host, observations);
  }

  lemma AbsorbStill(db: Db, host: Host, observations: seq<Observation>, acks: seq<Confirmation>)
    requires Absorb(db, host, observations, acks).Success?
    ensures Still(db.outbox, Absorb(db, host, observations, acks).value.outbox)
  {
    var x := Exchange(db, map[]);
    ConfirmAllStill(x, host, Latest(observations), acks);
    ObserveAllStill(ConfirmAll(x, host, Latest(observations), acks).value, host, observations);
  }

  // ------------------------------------------------------------ the potential

  /** Deliverable orders of a host. */
  ghost function Waiting(db: Db, host: Host): set<OpId> {
    set id | id in db.outbox && db.outbox[id].host == host && Deliverable(db.outbox[id].phase)
  }

  /** Those that stand before `x`. */
  ghost function Ahead(db: Db, host: Host, x: OpId): set<OpId>
    requires x in db.outbox
  {
    set id | id in Waiting(db, host) && Precedes(db.outbox[id], db.outbox[x])
  }

  ghost predicate Uncertain(db: Db, host: Host, x: OpId) {
    x in db.outbox && db.outbox[x].host == host && db.outbox[x].phase == InFlight && db.outbox[x].lastAttempt.Some?
  }

  /** Only new orders get ahead of `x`. */
  lemma StillShrinks(db: Db, next: Db, host: Host, x: OpId)
    requires Still(db.outbox, next.outbox) && x in db.outbox && Uncertain(next, host, x)
    ensures next.outbox[x] == db.outbox[x]
    ensures Ahead(next, host, x) <= Ahead(db, host, x) + (next.outbox.Keys - db.outbox.Keys)
  {
  }

  /** An exchange with room that passes over `x` serves an order ahead of `x`,
      which then stands behind it. */
  lemma PassingOverCosts(db: Db, host: Host, latest: map<ThreadId, Observation>, now: int, x: OpId)
    requires Inv(db) && Uncertain(db, host, x) && |Parked(db, host, latest, x)| < CANDIDATE_LIMIT
    requires db.outbox[x].lastAttempt.value < now
    requires !(Select(db, host, latest, now).1.Some? && Select(db, host, latest, now).1.value.operation == x)
    ensures var next := Select(db, host, latest, now).0;
            && x in next.outbox && next.outbox[x] == db.outbox[x]
            && Ahead(next, host, x) < Ahead(db, host, x)
  {
    InFlightIsCandidate(db, x);
    EligibleGetsServed(db, host, latest, x);
    var c := Select(db, host, latest, now).1.value.operation;
    assert c in Ahead(db, host, x) && c !in Ahead(Deliver(db, c, now), host, x);
  }

  /** Any exchange that passes over `x` puts nothing ahead of it. */
  lemma SelectAhead(db: Db, host: Host, latest: map<ThreadId, Observation>, now: int, other: Host, x: OpId)
    requires Uncertain(db, host, x) && (other == host ==> db.outbox[x].lastAttempt.value < now)
    requires !(Select(db, other, latest, now).1.Some? && Select(db, other, latest, now).1.value.operation == x)
    ensures var next := Select(db, other, latest, now).0;
            && next.outbox.Keys == db.outbox.Keys && next.outbox[x] == db.outbox[x]
            && Ahead(next, host, x) <= Ahead(db, host, x)
  {
  }

  // ------------------------------------------------------------ bounded bypass

  ghost predicate Repeats(db: Db, step: Step, x: OpId) {
    step.SyncStep?
    && var r := Sync(db, step.source, step.observations, step.acks, step.now);
       r.Success? && r.value.1.Some? && r.value.1.value.operation == x
  }

  ghost predicate Exchanges(db: Db, step: Step, host: Host) {
    step.SyncStep? && step.source == host && Sync(db, step.source, step.observations, step.acks, step.now).Success?
  }

  /** A completed exchange of the host at which fewer candidates than the window
      holds are parked before `x`. */
  ghost predicate HasRoom(db: Db, step: Step, host: Host, x: OpId) {
    Exchanges(db, step, host)
    && var absorbed := Absorb(db, host, step.observations, step.acks).value;
       x in absorbed.outbox && |Parked(absorbed, host, Latest(step.observations), x)| < CANDIDATE_LIMIT
  }

  /** Number of exchanges of `host` with room in a run. */
  ghost function RoomCount(db: Db, steps: seq<Step>, host: Host, x: OpId): nat {
    if steps == [] then 0
    else
      var n := |steps| - 1;
      RoomCount(db, steps[..n], host, x) + (if HasRoom(Run(db, steps[..n]), steps[n], host, x) then 1 else 0)
  }

  /** A run in which `x` stays uncertain without being repeated, and every
      exchange of the host comes after the last delivery of `x`. */
  ghost predicate Bypasses(db: Db, steps: seq<Step>, host: Host, x: OpId, since: int) {
    Uncertain(Run(db, steps), host, x)
    && (steps == [] ||
        var n := |steps| - 1;
        var mid := Run(db, steps[..n]);
        && Bypasses(db, steps[..n], host, x, since)
        && !Repeats(mid, steps[n], x)
        && (Exchanges(mid, steps[n], host) ==> since < steps[n].now))
  }

  lemma ExchangePassingOver(
    db: Db, host: Host, other: Host, observations: seq<Observation>, acks: seq<Confirmation>, now: int, x: OpId)
    requires Inv(db) && Uncertain(db, host, x) && Sync(db, other, observations, acks, now).Success?
    requires Uncertain(Sync(db, other, observations, acks, now).value.0, host, x)
    requires other == host ==> db.outbox[x].lastAttempt.value < now
    requires !Repeats(db, SyncStep(other, observations, acks, now), x)
    ensures var next := Sync(db, other, observations, acks, now).value.0;
            && next.outbox.Keys == db.outbox.Keys && next.outbox[x] == db.outbox[x]
            && Ahead(next, host, x) <= Ahead(db, host, x)
            && (HasRoom(db, SyncStep(other, observations, acks, now), host, x) ==>
                  Ahead(next, host, x) != Ahead(db, host, x))
  {
    var absorbed := Absorb(db, other, observations, acks).value;
    AbsorbStill(db, other, observations, acks);
    AbsorbKeeps(db, other, observations, acks);
    AbsorbKeys(db, other, observations, acks);
    assert absorbed.outbox[x] == Select(absorbed, other, Latest(observations), now).0.outbox[x];
    StillShrinks(db, absorbed, host, x);
    SelectAhead(absorbed, host, Latest(observations), now, other, x);
    if HasRoom(db, SyncStep(other, observations, acks, now), host, x) {
      PassingOverCosts(absorbed, host, Latest(observations), now, x);
    }
  }

  lemma EnqueuedStill(db: Db, agent: AgentId, op: OpId)
    requires agent in db.rows && Enqueue(db, agent, op).Success?
    ensures Still(db.outbox, Enqueued(db, agent, op).outbox)
  {
    var next := Enqueued(db, agent, op).outbox;
    assert forall id | id in db.outbox :: next[id] == SupersededOp(agent, db.outbox[id]);
  }

  lemma BindStill(db: Db, agent: AgentId, host: Host, thread: ThreadId, op: OpId)
    requires Bind(db, agent, host, thread, op).Success?
    ensures Still(db.outbox, Bind(db, agent, host, thread, op).value.outbox)
  {
    var bound := BindRow(db, agent, host, thread).value;
    if NeedsSync(bound, agent) { EnqueuedStill(bound, agent, op); }
  }

  lemma DecideStill(db: Db, c: Choice)
    requires Decide(db, c).Success?
    ensures Still(db.outbox, Decide(db, c).value.outbox)
  {
    if Changes(db, c) {
      var base := WithRow(db, c.agent, c.host);
      EnqueuedStill(RecordChange(base, c.agent, c.dormant, ChosenSync(db, c)), c.agent, c.request);
    }
  }

  lemma LocalStill(db: Db, step: Step)
    requires !step.SyncStep?
    ensures Still(db.outbox, Apply(db, step).outbox)
  {
    if Apply(db, step).outbox != db.outbox {
      match step
      case BindStep(agent, host, thread, op) => BindStill(db, agent, host, thread, op);
      case SetStep(c) => DecideStill(db, c);
    }
  }

  lemma StepPassingOver(db: Db, step: Step, host: Host, x: OpId)
    requires Inv(db) && Uncertain(db, host, x) && Uncertain(Apply(db, step), host, x) && !Repeats(db, step, x)
    requires Exchanges(db, step, host) ==> db.outbox[x].lastAttempt.value < step.now
    ensures var next := Apply(db, step);
            && db.outbox.Keys <= next.outbox.Keys && next.outbox[x] == db.outbox[x]
            && Ahead(next, host, x) <= Ahead(db, host, x) + (next.outbox.Keys - db.outbox.Keys)
            && (HasRoom(db, step, host, x) ==>
                  next.outbox.Keys == db.outbox.Keys && Ahead(next, host, x) < Ahead(db, host, x))
  {
    if step.SyncStep? {
      if Sync(db, step.source, step.observations, step.acks, step.now).Success? {
        ExchangePassingOver(db, host, step.source, step.observations, step.acks, step.now, x);
      }
    } else {
      LocalStill(db, step);
      StillShrinks(db, Apply(db, step), host, x);
    }
  }

  lemma ShrinkOrGrow<T>(a: set<T>, b: set<T>, keys: set<T>, next: set<T>, shrinks: bool)
    requires keys <= next && b <= a + (next - keys) && (shrinks ==> next == keys && b < a)
    ensures (if shrinks then 1 else 0) + |b| + |keys| <= |a| + |next|
  {
    assert next == keys + (next - keys);
    SubsetSize(b, a + (next - keys));
    if shrinks { SubsetSize(b, a); }
  }

  lemma StepCosts(db: Db, step: Step, host: Host, x: OpId)
    requires Inv(db) && Uncertain(db, host, x) && Uncertain(Apply(db, step), host, x) && !Repeats(db, step, x)
    requires Exchanges(db, step, host) ==> db.outbox[x].lastAttempt.value < step.now
    ensures var next := Apply(db, step);
            && next.outbox[x] == db.outbox[x]
            && (if HasRoom(db, step, host, x) then 1 else 0) + |Ahead(next, host, x)| + |db.outbox|
               <= |Ahead(db, host, x)| + |next.outbox|
  {
    StepPassingOver(db, step, host, x);
    var next := Apply(db, step);
    ShrinkOrGrow(Ahead(db, host, x), Ahead(next, host, x), db.outbox.Keys, next.outbox.Keys,
                 HasRoom(db, step, host, x));
    assert |next.outbox.Keys| == |next.outbox| && |db.outbox.Keys| == |db.outbox|;
  }

  lemma {:induction false} BypassCosts(db: Db, steps: seq<Step>, host: Host, x: OpId)
    requires Inv(db) && Uncertain(db, host, x) && Bypasses(db, steps, host, x, db.outbox[x].lastAttempt.value)
    ensures Inv(Run(db, steps)) && Run(db, steps).outbox[x] == db.outbox[x]
    ensures RoomCount(db, steps, host, x) + |Ahead(Run(db, steps), host, x)| + |db.outbox|
            <= |Ahead(db, host, x)| + |Run(db, steps).outbox|
  {
    if steps != [] {
      var n := |steps| - 1;
      BypassCosts(db, steps[..n], host, x);
      StepCosts(Run(db, steps[..n]), steps[n], host, x);
      ApplyKeeps(Run(db, steps[..n]), steps[n]);
    }
  }

  /** Bounded bypass: over any run, the exchanges with room that pass over an
      uncertain order are fewer than the deliverable orders its host had at the
      start and the orders added since. */
  lemma BoundedBypass(db: Db, steps: seq<Step>, host: Host, x: OpId)
    requires Inv(db) && Uncertain(db, host, x) && Bypasses(db, steps, host, x, db.outbox[x].lastAttempt.value)
    ensures RoomCount(db, steps, host, x) + |db.outbox| < |Waiting(db, host)| + |Run(db, steps).outbox|
  {
    BypassCosts(db, steps, host, x);
    assert x in Waiting(db, host) && Ahead(db, host, x) <= Waiting(db, host) - {x};
    SubsetSize(Ahead(db, host, x), Waiting(db, host) - {x});
  }

  /** A host with no more deliverable orders than the window holds always has room. */
  lemma WindowHasRoom(db: Db, step: Step, host: Host, x: OpId)
    requires Inv(db) && Exchanges(db, step, host) && Uncertain(db, host, x) && Uncertain(Apply(db, step), host, x)
    requires |Waiting(db, host)| <= CANDIDATE_LIMIT
    ensures HasRoom(db, step, host, x)
  {
    var absorbed := Absorb(db, host, step.observations, step.acks).value;
    AbsorbStill(db, host, step.observations, step.acks);
    AbsorbKeys(db, host, step.observations, step.acks);
    var parked := Parked(absorbed, host, Latest(step.observations), x);
    assert parked <= Waiting(db, host) - {x};
    SubsetSize(parked, Waiting(db, host) - {x});
  }
}
