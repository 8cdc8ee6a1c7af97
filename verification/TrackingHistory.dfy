/** What a run can and cannot undo: the tables only advance, so a receipt once
    recorded, an order once issued and a source sequence once reached stay. */
module TrackingHistory {
  import opened Wrappers
  import opened TrackingModel
  import opened TrackingInvariant

  /** The client has been seen, or what it confirmed is known. */
  predicate Seen(row: Row) { row.sourceRevision.Some? || row.sourceState.Some? }

  ghost predicate RowAdvances(r: Row, s: Row) {
    && r.revision <= s.revision
    && r.sequence <= s.sequence
    && (Seen(r) ==> Seen(s))
    && (r.thread.Some? ==> s.thread == r.thread)
  }

  ghost predicate OpAdvances(o: Operation, p: Operation) {
    && SameOrder(o, p)
    && o.host == p.host
    && o.attempt <= p.attempt
    && (forall k | k in o.receipts :: k in p.receipts && p.receipts[k] == o.receipts[k])
    && (o.phase == Applied ==> p == o)
    && (o.phase == Superseded ==> p == o)
    && (p.phase == Queued ==> o.phase == Queued)
    && (Deliverable(p.phase) ==> Deliverable(o.phase))
  }

  ghost predicate RowsAdvance(rows: Rows, next: Rows) {
    forall a {:trigger RowAdvances(rows[a], next[a])} | a in rows :: a in next && RowAdvances(rows[a], next[a])
  }

  ghost predicate OutboxAdvances(outbox: Outbox, next: Outbox) {
    forall id {:trigger OpAdvances(outbox[id], next[id])} | id in outbox ::
      id in next && OpAdvances(outbox[id], next[id])
  }

  ghost predicate RequestsKept(requests: map<(Actor, OpId), Receipt>, next: map<(Actor, OpId), Receipt>) {
    forall key | key in requests :: key in next && next[key] == requests[key]
  }

  ghost predicate Advances(db: Db, next: Db) {
    && db.rows.Keys <= next.rows.Keys
    && db.outbox.Keys <= next.outbox.Keys
    && RowsAdvance(db.rows, next.rows)
    && OutboxAdvances(db.outbox, next.outbox)
    && RequestsKept(db.requests, next.requests)
    && db.events <= next.events
  }

  lemma AdvanceReflexive(db: Db)
    ensures Advances(db, db)
  {
  }

  lemma AdvanceTransitive(a: Db, b: Db, c: Db)
    requires Advances(a, b) && Advances(b, c)
    ensures Advances(a, c)
  {
    forall id | id in a.outbox ensures OpAdvances(a.outbox[id], c.outbox[id]) {
      assert OpAdvances(a.outbox[id], b.outbox[id]) && OpAdvances(b.outbox[id], c.outbox[id]);
    }
    forall x | x in a.rows ensures RowAdvances(a.rows[x], c.rows[x]) {
      assert RowAdvances(a.rows[x], b.rows[x]) && RowAdvances(b.rows[x], c.rows[x]);
    }
  }

  lemma RowUpdateAdvances(db: Db, agent: AgentId, row: Row)
    requires agent in db.rows ==> RowAdvances(db.rows[agent], row)
    ensures Advances(db, db.(rows := db.rows[agent := row]))
  {
    var next := db.rows[agent := row];
    forall a | a in db.rows ensures RowAdvances(db.rows[a], next[a]) { }
  }

  lemma OpUpdateAdvances(db: Db, id: OpId, op: Operation)
    requires id in db.outbox && OpAdvances(db.outbox[id], op)
    ensures Advances(db, db.(outbox := db.outbox[id := op]))
  {
    var next := db.outbox[id := op];
    forall i | i in db.outbox ensures OpAdvances(db.outbox[i], next[i]) { }
  }

  lemma RecordAdvances(db: Db, agent: AgentId, dormant: bool, synchronize: bool)
    requires agent in db.rows && RowJournalled(db.events, agent, db.rows[agent])
    ensures Advances(db, RecordChange(db, agent, dormant, synchronize))
  {
    var next := RecordChange(db, agent, dormant, synchronize);
    forall a | a in db.rows ensures RowAdvances(db.rows[a], next.rows[a]) { }
    forall i | i in db.outbox ensures OpAdvances(db.outbox[i], next.outbox[i]) { }
  }

  lemma EnqueuedAdvances(db: Db, agent: AgentId, op: OpId)
    requires agent in db.rows && Enqueue(db, agent, op).Success?
    ensures Advances(db, Enqueued(db, agent, op))
  {
    var next := Enqueued(db, agent, op);
    forall a | a in db.rows ensures RowAdvances(db.rows[a], next.rows[a]) { }
    forall i | i in db.outbox ensures i in next.outbox && OpAdvances(db.outbox[i], next.outbox[i]) {
      assert next.outbox[i] == SupersededOp(agent, db.outbox[i]);
    }
  }

  lemma BindRowAdvances(db: Db, agent: AgentId, host: Host, thread: ThreadId)
    requires BindRow(db, agent, host, thread).Success?
    ensures Advances(db, BindRow(db, agent, host, thread).value)
  {
    var next := BindRow(db, agent, host, thread).value;
    if next != db {
      RowUpdateAdvances(db, agent, next.rows[agent]);
      assert next == db.(rows := db.rows[agent := next.rows[agent]]);
    }
  }

  lemma BindAdvances(db: Db, agent: AgentId, host: Host, thread: ThreadId, op: OpId)
    requires Inv(db) && Bind(db, agent, host, thread, op).Success?
    ensures Advances(db, Bind(db, agent, host, thread, op).value)
  {
    BindRowAdvances(db, agent, host, thread);
    BindRowKeeps(db, agent, host, thread);
    var bound := BindRow(db, agent, host, thread).value;
    if NeedsSync(bound, agent) {
      EnqueuedAdvances(bound, agent, op);
      AdvanceTransitive(db, bound, Enqueued(bound, agent, op));
    }
  }

  lemma DecideAdvances(db: Db, c: Choice)
    requires Inv(db) && Decide(db, c).Success?
    ensures Advances(db, Decide(db, c).value)
  {
    var base := WithRow(db, c.agent, c.host);
    if c.agent !in db.rows {
      HarmlessKeeps(db, c.agent, NewRow(c.host, None));
      RowUpdateAdvances(db, c.agent, NewRow(c.host, None));
    } else {
      AdvanceReflexive(db);
    }
    if Changes(db, c) {
      assert RowJournalled(base.events, c.agent, base.rows[c.agent]);
      RecordAdvances(base, c.agent, c.dormant, ChosenSync(db, c));
      var recorded := RecordChange(base, c.agent, c.dormant, ChosenSync(db, c));
      EnqueuedAdvances(recorded, c.agent, c.request);
      AdvanceTransitive(base, recorded, Enqueued(recorded, c.agent, c.request));
      AdvanceTransitive(db, base, Enqueued(recorded, c.agent, c.request));
    }
  }

  lemma SetAdvances(db: Db, c: Choice)
    requires Inv(db) && Set(db, c).Success?
    ensures Advances(db, Set(db, c).value.0)
  {
    if (c.actor, c.request) in db.requests {
      AdvanceReflexive(db);
    } else {
      DecideAdvances(db, c);
      DecideKeepsRequests(db, c);
      var decided := Decide(db, c).value;
      AdvanceReflexive(decided);
      assert Advances(decided, Answer(decided, c).value.0);
      AdvanceTransitive(db, decided, Answer(decided, c).value.0);
    }
  }

  lemma DecideKeepsRequests(db: Db, c: Choice)
    requires Decide(db, c).Success?
    ensures Decide(db, c).value.requests == db.requests
  {
  }

  lemma AppliedAdvances(db: Db, id: OpId, sequence: nat)
    requires Inv(db) && id in db.outbox && db.outbox[id].phase == InFlight
    ensures Advances(db, MarkApplied(db, id, sequence))
  {
    var op := db.outbox[id];
    assert OpLinked(db.rows, op) && WellAttempted(op);
    OpUpdateAdvances(db, id, AppliedOp(op, sequence));
    var mid := db.(outbox := db.outbox[id := AppliedOp(op, sequence)]);
    RowUpdateAdvances(mid, op.agent, AppliedRow(db.rows[op.agent], id, op.dormant, sequence));
    AdvanceTransitive(db, mid, MarkApplied(db, id, sequence));
  }

  lemma ConfirmAdvances(x: Exchange, host: Host, latest: map<ThreadId, Observation>, ack: Confirmation)
    requires Inv(x.db) && Confirm(x, host, latest, ack).Success?
    ensures Advances(x.db, Confirm(x, host, latest, ack).value.db)
  {
    if Answers(x.db, host, ack) {
      var op := x.db.outbox[ack.operation];
      match ack.outcome {
        case AppliedAt(sequence) => AppliedAdvances(x.db, ack.operation, sequence);
        case Rejected =>
          assert WellAttempted(op);
          OpUpdateAdvances(x.db, ack.operation, RejectedOp(x.db.rows[op.agent], op, latest));
      }
    } else {
      AdvanceReflexive(x.db);
    }
  }

  lemma {:induction false} ConfirmAllAdvances(
    x: Exchange, host: Host, latest: map<ThreadId, Observation>, acks: seq<Confirmation>)
    requires Inv(x.db) && ConfirmAll(x, host, latest, acks).Success?
    ensures Advances(x.db, ConfirmAll(x, host, latest, acks).value.db)
  {
    if acks == [] {
      AdvanceReflexive(x.db);
    } else {
      var n := |acks| - 1;
      var y := ConfirmAll(x, host, latest, acks[..n]).value;
      ConfirmAllAdvances(x, host, latest, acks[..n]);
      ConfirmAllKeeps(x, host, latest, acks[..n]);
      ConfirmAdvances(y, host, latest, acks[n]);
      AdvanceTransitive(x.db, y.db, Confirm(y, host, latest, acks[n]).value.db);
    }
  }

  lemma ObserveAsAdvances(x: Exchange, agent: AgentId, o: Observation)
    requires Inv(x.db) && agent in x.db.rows
    ensures Advances(x.db, ObserveAs(x, agent, o).db)
  {
    if Stale(x.db.rows[agent], o) {
      AdvanceReflexive(x.db);
    } else {
      assert RowJournalled(x.db.events, agent, x.db.rows[agent]);
      var db := if Overrides(x, agent, o) then RecordChange(x.db, agent, o.explicit == Some(Settled), true) else x.db;
      if Overrides(x, agent, o) {
        RecordAdvances(x.db, agent, o.explicit == Some(Settled), true);
      } else {
        AdvanceReflexive(x.db);
      }
      RowUpdateAdvances(db, agent, StoreObservation(db, agent, o).rows[agent]);
      AdvanceTransitive(x.db, db, StoreObservation(db, agent, o));
    }
  }

  lemma ObserveAdvances(x: Exchange, host: Host, o: Observation)
    requires Inv(x.db) && Observe(x, host, o).Success?
    ensures Advances(x.db, Observe(x, host, o).value.db)
  {
    AdvanceReflexive(x.db);
    forall a | Listens(x.db, host, o, a) ensures Advances(x.db, ObserveAs(x, a, o).db) {
      ObserveAsAdvances(x, a, o);
    }
  }

  lemma {:induction false} ObserveAllAdvances(x: Exchange, host: Host, observations: seq<Observation>)
    requires Inv(x.db) && ObserveAll(x, host, observations).Success?
    ensures Advances(x.db, ObserveAll(x, host, observations).value.db)
  {
    if observations == [] {
      AdvanceReflexive(x.db);
    } else {
      var n := |observations| - 1;
      var y := ObserveAll(x, host, observations[..n]).value;
      ObserveAllAdvances(x, host, observations[..n]);
      ObserveAllKeeps(x, host, observations[..n]);
      ObserveAdvances(y, host, observations[n]);
      AdvanceTransitive(x.db, y.db, Observe(y, host, observations[n]).value.db);
    }
  }

  lemma AbsorbAdvances(db: Db, host: Host, observations: seq<Observation>, acks: seq<Confirmation>)
    requires Inv(db) && Absorb(db, host, observations, acks).Success?
    ensures Advances(db, Absorb(db, host, observations, acks).value)
  {
    var x := Exchange(db, map[]);
    var y := ConfirmAll(x, host, Latest(observations), acks).value;
    ConfirmAllAdvances(x, host, Latest(observations), acks);
    ConfirmAllKeeps(x, host, Latest(observations), acks);
    ObserveAllAdvances(y, host, observations);
    AdvanceTransitive(db, y.db, ObserveAll(y, host, observations).value.db);
  }

  lemma SelectAdvances(db: Db, host: Host, latest: map<ThreadId, Observation>, now: int)
    requires Inv(db)
    ensures Advances(db, Select(db, host, latest, now).0)
  {
    AdvanceReflexive(db);
    forall id | Chosen(db, host, latest, id) ensures Advances(db, Deliver(db, id, now)) {
      assert WellAttempted(db.outbox[id]);
      OpUpdateAdvances(db, id, DeliveredOp(db.outbox[id], now));
    }
  }

  lemma SyncAdvances(db: Db, host: Host, observations: seq<Observation>, acks: seq<Confirmation>, now: int)
    requires Inv(db) && Sync(db, host, observations, acks, now).Success?
    ensures Advances(db, Sync(db, host, observations, acks, now).value.0)
  {
    var absorbed := Absorb(db, host, observations, acks).value;
    AbsorbAdvances(db, host, observations, acks);
    AbsorbKeeps(db, host, observations, acks);
    SelectAdvances(absorbed, host, Latest(observations), now);
    AdvanceTransitive(db, absorbed, Select(absorbed, host, Latest(observations), now).0);
  }

  lemma ApplyAdvances(db: Db, step: Step)
    requires Inv(db)
    ensures Advances(db, Apply(db, step))
  {
    AdvanceReflexive(db);
    match step
    case BindStep(agent, host, thread, op) =>
      if Bind(db, agent, host, thread, op).Success? { BindAdvances(db, agent, host, thread, op); }
    case SetStep(choice) =>
      if Set(db, choice).Success? { SetAdvances(db, choice); }
    case SyncStep(host, observations, acks, now) =>
      if Sync(db, host, observations, acks, now).Success? { SyncAdvances(db, host, observations, acks, now); }
  }

  /** Over any run from any reachable state: no receipt is lost or rewritten, no
      order changes its content, no source sequence and no revision goes back,
      a closed order stays closed and the journal only grows. */
  lemma {:induction false} RunAdvances(db: Db, steps: seq<Step>)
    requires Inv(db)
    ensures Inv(Run(db, steps))
    ensures Advances(db, Run(db, steps))
  {
    if steps == [] {
      AdvanceReflexive(db);
    } else {
      var prefix := steps[..|steps| - 1];
      RunAdvances(db, prefix);
      ApplyKeeps(Run(db, prefix), steps[|steps| - 1]);
      ApplyAdvances(Run(db, prefix), steps[|steps| - 1]);
      AdvanceTransitive(db, Run(db, prefix), Run(db, steps));
    }
  }
}
