/** The inductive invariant of the sleep/wake tables: it holds of the empty
    tables and every transaction keeps it. */
module TrackingInvariant {
  import opened Wrappers
  import opened TrackingModel

  type Rows = map<AgentId, Row>
  type Outbox = map<OpId, Operation>

  ghost predicate OpLinked(rows: Rows, op: Operation) {
    && op.agent in rows
    && rows[op.agent].thread == Some(op.thread)
    && op.revision <= rows[op.agent].revision
  }

  ghost predicate Linked(rows: Rows, outbox: Outbox) {
    forall id {:trigger OpLinked(rows, outbox[id])} | id in outbox :: OpLinked(rows, outbox[id])
  }

  ghost predicate ThreadsUnique(rows: Rows) {
    forall a, b | a in rows && b in rows && rows[a].thread.Some? && rows[a].thread == rows[b].thread :: a == b
  }

  /** The row of an agent is what its last journal entry says. */
  ghost predicate RowJournalled(events: seq<Event>, a: AgentId, row: Row) {
    && row.revision <= |events|
    && (row.revision == 0 ==> !row.dormant && row.synchronize)
    && (row.revision > 0 ==> events[row.revision - 1] == Event(a, row.dormant, row.synchronize))
    && forall i | row.revision <= i < |events| :: events[i].agent != a
  }

  ghost predicate Journalled(events: seq<Event>, rows: Rows) {
    && (forall a {:trigger RowJournalled(events, a, rows[a])} | a in rows :: RowJournalled(events, a, rows[a]))
    && (forall i | 0 <= i < |events| :: events[i].agent in rows)
  }

  /** An operation carries the choice of the journal entry it was made for. */
  ghost predicate OpJournalled(events: seq<Event>, op: Operation) {
    && 0 < op.revision <= |events|
    && events[op.revision - 1] == Event(op.agent, op.dormant, true)
  }

  ghost predicate OpsJournalled(events: seq<Event>, outbox: Outbox) {
    forall id {:trigger OpJournalled(events, outbox[id])} | id in outbox :: OpJournalled(events, outbox[id])
  }

  ghost predicate RevisionsDistinct(outbox: Outbox) {
    forall o, p | o in outbox && p in outbox && outbox[o].revision == outbox[p].revision :: o == p
  }

  ghost predicate OneInFlight(outbox: Outbox) {
    forall o, p |
      && o in outbox && p in outbox
      && outbox[o].agent == outbox[p].agent
      && outbox[o].phase == InFlight && outbox[p].phase == InFlight :: o == p
  }

  /** An unsent operation, or an uncertain one for the current revision, is the pending one. */
  ghost predicate OpPending(rows: Rows, id: OpId, op: Operation) {
    op.agent in rows && (Unsent(op.phase) || (op.phase == InFlight && op.revision == rows[op.agent].revision))
    ==> rows[op.agent].pendingId == Some(id)
  }

  ghost predicate OpenIsPending(rows: Rows, outbox: Outbox) {
    forall id {:trigger OpPending(rows, id, outbox[id])} | id in outbox :: OpPending(rows, id, outbox[id])
  }

  ghost predicate PendingCurrent(outbox: Outbox, a: AgentId, row: Row) {
    row.pendingId.Some? ==>
      && row.pendingId.value in outbox
      && row.synchronize
      && var op := outbox[row.pendingId.value];
         && op.agent == a
         && op.revision == row.revision
         && op.dormant == row.dormant
         && (Unsent(op.phase) || op.phase == InFlight)
  }

  ghost predicate PendingIsCurrent(rows: Rows, outbox: Outbox) {
    forall a {:trigger PendingCurrent(outbox, a, rows[a])} | a in rows :: PendingCurrent(outbox, a, rows[a])
  }

  ghost predicate WasRejected(receipts: map<nat, Outcome>, k: nat) {
    k in receipts && receipts[k] == Rejected
  }

  /** Attempts before the current one were rejected; the current one has the
      receipt its phase calls for. */
  ghost predicate WellAttempted(op: Operation) {
    && op.attempt <= 2
    && (forall k: nat | k < op.attempt :: WasRejected(op.receipts, k))
    && (forall k | k in op.receipts :: k <= op.attempt)
    && match op.phase
       case Queued => op.attempt == 0 && op.lastAttempt.None? && op.attempt !in op.receipts
       case InFlight => op.lastAttempt.Some? && op.attempt !in op.receipts
       case WaitingSource => op.attempt < 2 && WasRejected(op.receipts, op.attempt)
       case Refused => op.attempt == 2 && WasRejected(op.receipts, op.attempt)
       case Applied => op.appliedSequence.Some? && op.attempt in op.receipts
         && op.receipts[op.attempt] == AppliedAt(op.appliedSequence.value)
       case Superseded => op.attempt in op.receipts ==> WasRejected(op.receipts, op.attempt)
  }

  ghost predicate AttemptsLogged(outbox: Outbox) {
    forall id {:trigger WellAttempted(outbox[id])} | id in outbox :: WellAttempted(outbox[id])
  }

  ghost predicate FloorsHold(rows: Rows) {
    forall a | a in rows :: rows[a].floor <= rows[a].sequence
  }

  ghost predicate Inv(db: Db) {
    && Linked(db.rows, db.outbox)
    && ThreadsUnique(db.rows)
    && Journalled(db.events, db.rows)
    && OpsJournalled(db.events, db.outbox)
    && RevisionsDistinct(db.outbox)
    && OneInFlight(db.outbox)
    && OpenIsPending(db.rows, db.outbox)
    && PendingIsCurrent(db.rows, db.outbox)
    && AttemptsLogged(db.outbox)
    && FloorsHold(db.rows)
  }

  // ---------------------------------------------------------------- choices

  /** The choice has been recorded and its operation is about to be queued. */
  ghost predicate Recorded(db: Db, agent: AgentId) {
    && agent in db.rows
    && db.rows[agent].revision > 0
    && (forall id | id in db.outbox && db.outbox[id].agent == agent :: db.outbox[id].revision < db.rows[agent].revision)
  }

  lemma EnqueuedKeepsRevisions(db: Db, agent: AgentId, op: OpId)
    requires Recorded(db, agent) && Enqueue(db, agent, op).Success?
    requires Journalled(db.events, db.rows) && OpsJournalled(db.events, db.outbox) && RevisionsDistinct(db.outbox)
    ensures RevisionsDistinct(Enqueued(db, agent, op).outbox)
  {
    assert RowJournalled(db.events, agent, db.rows[agent]);
    forall id | id in db.outbox ensures db.outbox[id].revision != db.rows[agent].revision {
      assert OpJournalled(db.events, db.outbox[id]);
    }
  }

  lemma EnqueuedKeepsJournal(db: Db, agent: AgentId, op: OpId)
    requires Recorded(db, agent) && Journalled(db.events, db.rows)
    ensures Journalled(db.events, Enqueued(db, agent, op).rows)
  {
    var next := Enqueued(db, agent, op).rows;
    forall a | a in next ensures RowJournalled(db.events, a, next[a]) {
      assert RowJournalled(db.events, a, db.rows[a]);
    }
  }

  lemma EnqueuedKeepsOpJournal(db: Db, agent: AgentId, op: OpId)
    requires Recorded(db, agent) && RowJournalled(db.events, agent, db.rows[agent])
    requires OpsJournalled(db.events, db.outbox)
    ensures OpsJournalled(db.events, Enqueued(db, agent, op).outbox)
  {
    var next := Enqueued(db, agent, op).outbox;
    forall id | id in next ensures OpJournalled(db.events, next[id]) {
      if id in db.outbox { assert OpJournalled(db.events, db.outbox[id]); }
    }
  }

  lemma SupersededKeepsAttempts(agent: AgentId, op: Operation)
    requires WellAttempted(op)
    ensures WellAttempted(SupersededOp(agent, op))
  {
  }

  lemma EnqueuedKeepsAttempts(db: Db, agent: AgentId, op: OpId)
    requires agent in db.rows && Enqueue(db, agent, op).Success? && AttemptsLogged(db.outbox)
    ensures AttemptsLogged(Enqueued(db, agent, op).outbox)
  {
    forall id | id in db.outbox ensures WellAttempted(SupersededOp(agent, db.outbox[id])) {
      assert WellAttempted(db.outbox[id]);
      SupersededKeepsAttempts(agent, db.outbox[id]);
    }
  }

  lemma EnqueuedKeepsLinks(db: Db, agent: AgentId, op: OpId)
    requires agent in db.rows && Linked(db.rows, db.outbox)
    ensures Linked(Enqueued(db, agent, op).rows, Enqueued(db, agent, op).outbox)
  {
    var next := Enqueued(db, agent, op);
    forall id | id in next.outbox ensures OpLinked(next.rows, next.outbox[id]) {
      if id in db.outbox { assert OpLinked(db.rows, db.outbox[id]); }
    }
  }

  /** Every agent but one satisfies the two pending clauses. */
  ghost predicate OthersPending(rows: Rows, outbox: Outbox, agent: AgentId) {
    && (forall a {:trigger PendingCurrent(outbox, a, rows[a])} | a in rows && a != agent ::
      PendingCurrent(outbox, a, rows[a]))
    && (forall id {:trigger OpPending(rows, id, outbox[id])} | id in outbox && outbox[id].agent != agent ::
      OpPending(rows, id, outbox[id]))
  }

  lemma EnqueuedMakesPending(db: Db, agent: AgentId, op: OpId)
    requires Recorded(db, agent) && Enqueue(db, agent, op).Success? && OthersPending(db.rows, db.outbox, agent)
    ensures OpenIsPending(Enqueued(db, agent, op).rows, Enqueued(db, agent, op).outbox)
  {
    var next := Enqueued(db, agent, op);
    forall id | id in next.outbox ensures OpPending(next.rows, id, next.outbox[id]) {
      if id in db.outbox && db.outbox[id].agent != agent { assert OpPending(db.rows, id, db.outbox[id]); }
    }
  }

  lemma EnqueuedIsCurrent(db: Db, agent: AgentId, op: OpId)
    requires agent in db.rows && Enqueue(db, agent, op).Success? && OthersPending(db.rows, db.outbox, agent)
    ensures PendingIsCurrent(Enqueued(db, agent, op).rows, Enqueued(db, agent, op).outbox)
  {
    var next := Enqueued(db, agent, op);
    forall a | a in next.rows ensures PendingCurrent(next.outbox, a, next.rows[a]) {
      if a != agent { assert PendingCurrent(db.outbox, a, db.rows[a]); }
    }
  }

  lemma EnqueuedKeepsInFlight(db: Db, agent: AgentId, op: OpId)
    requires agent in db.rows && Enqueue(db, agent, op).Success? && OneInFlight(db.outbox)
    ensures OneInFlight(Enqueued(db, agent, op).outbox)
  {
  }

  /** The state between `record_change` and `enqueue`. */
  ghost predicate InvExcept(db: Db, agent: AgentId) {
    && Linked(db.rows, db.outbox)
    && ThreadsUnique(db.rows)
    && Journalled(db.events, db.rows)
    && OpsJournalled(db.events, db.outbox)
    && RevisionsDistinct(db.outbox)
    && OneInFlight(db.outbox)
    && OthersPending(db.rows, db.outbox, agent)
    && AttemptsLogged(db.outbox)
    && FloorsHold(db.rows)
  }

  lemma EnqueuedKeeps(db: Db, agent: AgentId, op: OpId)
    requires InvExcept(db, agent) && Recorded(db, agent) && Enqueue(db, agent, op).Success?
    ensures Inv(Enqueued(db, agent, op))
  {
    EnqueuedKeepsRevisions(db, agent, op);
    EnqueuedKeepsJournal(db, agent, op);
    assert RowJournalled(db.events, agent, db.rows[agent]);
    EnqueuedKeepsOpJournal(db, agent, op);
    EnqueuedKeepsAttempts(db, agent, op);
    EnqueuedKeepsLinks(db, agent, op);
    EnqueuedMakesPending(db, agent, op);
    EnqueuedIsCurrent(db, agent, op);
    EnqueuedKeepsInFlight(db, agent, op);
  }

  // ------------------------------------------------------------- row updates

  ghost predicate SameChoice(r: Row, s: Row) {
    r.dormant == s.dormant && r.synchronize == s.synchronize && r.revision == s.revision && r.pendingId == s.pendingId
  }

  /** A row update that leaves the agent's choice alone. */
  ghost predicate Harmless(db: Db, agent: AgentId, row: Row) {
    && (agent in db.rows ==> SameChoice(db.rows[agent], row))
    && (agent in db.rows && db.rows[agent].thread.Some? ==> row.thread == db.rows[agent].thread)
    && (agent !in db.rows ==> SameChoice(NewRow(row.host, None), row))
    && (row.thread.Some? ==> !ThreadTaken(db, agent, row.thread.value))
    && row.floor <= row.sequence
  }

  lemma HarmlessKeepsJournal(db: Db, agent: AgentId, row: Row)
    requires Harmless(db, agent, row) && Journalled(db.events, db.rows)
    ensures Journalled(db.events, db.rows[agent := row])
  {
    var next := db.rows[agent := row];
    forall a | a in next ensures RowJournalled(db.events, a, next[a]) {
      if a in db.rows { assert RowJournalled(db.events, a, db.rows[a]); }
    }
  }

  lemma HarmlessKeepsPending(db: Db, agent: AgentId, row: Row)
    requires Harmless(db, agent, row) && Linked(db.rows, db.outbox)
    requires OpenIsPending(db.rows, db.outbox) && PendingIsCurrent(db.rows, db.outbox)
    ensures Linked(db.rows[agent := row], db.outbox)
    ensures OpenIsPending(db.rows[agent := row], db.outbox)
    ensures PendingIsCurrent(db.rows[agent := row], db.outbox)
  {
    var next := db.rows[agent := row];
    forall id | id in db.outbox ensures OpLinked(next, db.outbox[id]) && OpPending(next, id, db.outbox[id]) {
      assert OpLinked(db.rows, db.outbox[id]) && OpPending(db.rows, id, db.outbox[id]);
    }
    forall a | a in next ensures PendingCurrent(db.outbox, a, next[a]) {
      if a in db.rows { assert PendingCurrent(db.outbox, a, db.rows[a]); }
    }
  }

  lemma HarmlessKeepsThreads(db: Db, agent: AgentId, row: Row)
    requires Harmless(db, agent, row) && ThreadsUnique(db.rows)
    ensures ThreadsUnique(db.rows[agent := row])
  {
  }

  lemma HarmlessKeeps(db: Db, agent: AgentId, row: Row)
    requires Inv(db) && Harmless(db, agent, row)
    ensures Inv(db.(rows := db.rows[agent := row]))
  {
    HarmlessKeepsJournal(db, agent, row);
    HarmlessKeepsPending(db, agent, row);
    HarmlessKeepsThreads(db, agent, row);
  }

  lemma BindRowKeeps(db: Db, agent: AgentId, host: Host, thread: ThreadId)
    requires Inv(db) && BindRow(db, agent, host, thread).Success?
    ensures Inv(BindRow(db, agent, host, thread).value)
    ensures agent in BindRow(db, agent, host, thread).value.rows
  {
    var next := BindRow(db, agent, host, thread).value;
    if next != db {
      HarmlessKeeps(db, agent, next.rows[agent]);
    }
  }

  lemma BindKeeps(db: Db, agent: AgentId, host: Host, thread: ThreadId, op: OpId)
    requires Inv(db) && Bind(db, agent, host, thread, op).Success?
    ensures Inv(Bind(db, agent, host, thread, op).value)
  {
    BindRowKeeps(db, agent, host, thread);
    var bound := BindRow(db, agent, host, thread).value;
    if NeedsSync(bound, agent) {
      EnqueuedKeeps(bound, agent, op);
    }
  }

  lemma RecordKeepsJournal(db: Db, agent: AgentId, dormant: bool, synchronize: bool)
    requires agent in db.rows && Journalled(db.events, db.rows)
    ensures Journalled(RecordChange(db, agent, dormant, synchronize).events,
            RecordChange(db, agent, dormant, synchronize).rows)
  {
    var next := RecordChange(db, agent, dormant, synchronize);
    forall a | a in next.rows ensures RowJournalled(next.events, a, next.rows[a]) {
      assert RowJournalled(db.events, a, db.rows[a]);
    }
  }

  lemma RecordKeepsOps(db: Db, agent: AgentId, dormant: bool, synchronize: bool)
    requires agent in db.rows && RowJournalled(db.events, agent, db.rows[agent])
    requires Linked(db.rows, db.outbox) && OpsJournalled(db.events, db.outbox)
    ensures OpsJournalled(RecordChange(db, agent, dormant, synchronize).events, db.outbox)
    ensures Linked(RecordChange(db, agent, dormant, synchronize).rows, db.outbox)
    ensures Recorded(RecordChange(db, agent, dormant, synchronize), agent)
  {
    var next := RecordChange(db, agent, dormant, synchronize);
    forall id | id in db.outbox
      ensures OpJournalled(next.events, db.outbox[id]) && OpLinked(next.rows, db.outbox[id])
      ensures db.outbox[id].revision <= |db.events|
    {
      assert OpJournalled(db.events, db.outbox[id]) && OpLinked(db.rows, db.outbox[id]);
    }
  }

  lemma RecordKeepsOthers(db: Db, agent: AgentId, dormant: bool, synchronize: bool)
    requires agent in db.rows && OpenIsPending(db.rows, db.outbox) && PendingIsCurrent(db.rows, db.outbox)
    ensures OthersPending(RecordChange(db, agent, dormant, synchronize).rows, db.outbox, agent)
  {
    var next := RecordChange(db, agent, dormant, synchronize).rows;
    forall id | id in db.outbox && db.outbox[id].agent != agent ensures OpPending(next, id, db.outbox[id]) {
      assert OpPending(db.rows, id, db.outbox[id]);
    }
    forall a | a in next && a != agent ensures PendingCurrent(db.outbox, a, next[a]) {
      assert PendingCurrent(db.outbox, a, db.rows[a]);
    }
  }

  lemma RecordKeepsAllButPending(db: Db, agent: AgentId, dormant: bool, synchronize: bool)
    requires Inv(db) && agent in db.rows
    ensures InvExcept(RecordChange(db, agent, dormant, synchronize), agent)
    ensures Recorded(RecordChange(db, agent, dormant, synchronize), agent)
  {
    assert RowJournalled(db.events, agent, db.rows[agent]);
    RecordKeepsJournal(db, agent, dormant, synchronize);
    RecordKeepsOps(db, agent, dormant, synchronize);
    RecordKeepsOthers(db, agent, dormant, synchronize);
  }

  /** A change learnt from the client: nothing is pending for the agent. */
  lemma RecordKeeps(db: Db, agent: AgentId, dormant: bool, synchronize: bool)
    requires Inv(db) && agent in db.rows && !Pending(db, agent)
    ensures Inv(RecordChange(db, agent, dormant, synchronize))
  {
    RecordKeepsAllButPending(db, agent, dormant, synchronize);
    var next := RecordChange(db, agent, dormant, synchronize).rows;
    forall id | id in db.outbox ensures OpPending(next, id, db.outbox[id]) {
      assert OpPending(db.rows, id, db.outbox[id]);
      if db.outbox[id].agent != agent { assert OpPending(next, id, db.outbox[id]); }
    }
    forall a | a in next ensures PendingCurrent(db.outbox, a, next[a]) {
      assert PendingCurrent(db.outbox, a, db.rows[a]);
    }
  }

  lemma DecideKeeps(db: Db, c: Choice)
    requires Inv(db) && Decide(db, c).Success?
    ensures Inv(Decide(db, c).value)
  {
    if c.agent !in db.rows { HarmlessKeeps(db, c.agent, NewRow(c.host, None)); }
    var base := WithRow(db, c.agent, c.host);
    if Changes(db, c) {
      RecordKeepsAllButPending(base, c.agent, c.dormant, ChosenSync(db, c));
      EnqueuedKeeps(RecordChange(base, c.agent, c.dormant, ChosenSync(db, c)), c.agent, c.request);
    }
  }

  lemma SetKeeps(db: Db, c: Choice)
    requires Inv(db) && Set(db, c).Success?
    ensures Inv(Set(db, c).value.0)
  {
    if (c.actor, c.request) !in db.requests { DecideKeeps(db, c); }
  }

  // ------------------------------------------------- deliveries and receipts

  ghost predicate SameOrder(o: Operation, p: Operation) {
    o.agent == p.agent && o.revision == p.revision && o.thread == p.thread && o.dormant == p.dormant
  }

  ghost predicate Open(p: Phase) {
    Unsent(p) || p == InFlight
  }

  /** The operation `id` moves on to `op` and its agent's row to `row`. */
  ghost predicate Moves(db: Db, id: OpId, op: Operation, row: Row) {
    && id in db.outbox && db.outbox[id].agent in db.rows
    && var before := db.rows[db.outbox[id].agent];
       && SameOrder(db.outbox[id], op)
       && WellAttempted(op)
       && SameChoice(before.(pendingId := row.pendingId), row)
       && row.thread == before.thread
       && row.floor <= row.sequence
       && (row.pendingId == before.pendingId || (before.pendingId == Some(id) && row.pendingId.None?))
       && (row.pendingId == Some(id) ==> Open(op.phase))
       && (Unsent(op.phase) ==> row.pendingId == Some(id))
       && (op.phase == InFlight ==>
             && (op.revision == row.revision ==> row.pendingId == Some(id))
             && forall p | p in db.outbox && p != id && db.outbox[p].agent == op.agent ::
               db.outbox[p].phase != InFlight)
  }

  lemma MoveKeepsRows(db: Db, id: OpId, op: Operation, row: Row)
    requires Moves(db, id, op, row) && Journalled(db.events, db.rows) && ThreadsUnique(db.rows)
    ensures Journalled(db.events, db.rows[op.agent := row])
    ensures ThreadsUnique(db.rows[op.agent := row])
  {
    var next := db.rows[op.agent := row];
    forall a | a in next ensures RowJournalled(db.events, a, next[a]) {
      assert RowJournalled(db.events, a, db.rows[a]);
    }
  }

  lemma MoveKeepsOps(db: Db, id: OpId, op: Operation, row: Row)
    requires Moves(db, id, op, row) && Linked(db.rows, db.outbox)
    requires OpsJournalled(db.events, db.outbox) && AttemptsLogged(db.outbox)
    ensures Linked(db.rows[op.agent := row], db.outbox[id := op])
    ensures OpsJournalled(db.events, db.outbox[id := op])
    ensures AttemptsLogged(db.outbox[id := op])
  {
    var rows, outbox := db.rows[op.agent := row], db.outbox[id := op];
    forall i | i in outbox
      ensures OpLinked(rows, outbox[i]) && OpJournalled(db.events, outbox[i]) && WellAttempted(outbox[i])
    {
      assert OpLinked(db.rows, db.outbox[i]) && OpJournalled(db.events, db.outbox[i]) && WellAttempted(db.outbox[i]);
    }
  }

  lemma MoveKeepsPending(db: Db, id: OpId, op: Operation, row: Row)
    requires Moves(db, id, op, row)
    requires OpenIsPending(db.rows, db.outbox) && PendingIsCurrent(db.rows, db.outbox)
    ensures OpenIsPending(db.rows[op.agent := row], db.outbox[id := op])
    ensures PendingIsCurrent(db.rows[op.agent := row], db.outbox[id := op])
  {
    var rows, outbox := db.rows[op.agent := row], db.outbox[id := op];
    forall i | i in outbox ensures OpPending(rows, i, outbox[i]) {
      assert OpPending(db.rows, i, db.outbox[i]);
    }
    forall a | a in rows ensures PendingCurrent(outbox, a, rows[a]) {
      assert PendingCurrent(db.outbox, a, db.rows[a]);
    }
  }

  lemma MoveKeepsPairs(db: Db, id: OpId, op: Operation, row: Row)
    requires Moves(db, id, op, row) && RevisionsDistinct(db.outbox) && OneInFlight(db.outbox)
    ensures RevisionsDistinct(db.outbox[id := op]) && OneInFlight(db.outbox[id := op])
  {
  }

  lemma MoveKeeps(db: Db, id: OpId, op: Operation, row: Row)
    requires Inv(db) && Moves(db, id, op, row)
    ensures Inv(db.(rows := db.rows[op.agent := row], outbox := db.outbox[id := op]))
  {
    MoveKeepsRows(db, id, op, row);
    MoveKeepsOps(db, id, op, row);
    MoveKeepsPending(db, id, op, row);
    MoveKeepsPairs(db, id, op, row);
  }

  lemma AppliedKeepsAttempts(op: Operation, sequence: nat)
    requires WellAttempted(op) && op.phase == InFlight
    ensures WellAttempted(AppliedOp(op, sequence))
  {
    var next := AppliedOp(op, sequence);
    forall k: nat | k < next.attempt ensures WasRejected(next.receipts, k) {
      assert WasRejected(op.receipts, k);
    }
  }

  lemma RejectedKeepsAttempts(row: Row, op: Operation, latest: map<ThreadId, Observation>)
    requires WellAttempted(op) && op.phase == InFlight
    ensures WellAttempted(RejectedOp(row, op, latest))
  {
    var next := RejectedOp(row, op, latest);
    forall k: nat | k < next.attempt ensures WasRejected(next.receipts, k) {
      assert WasRejected(op.receipts, k);
    }
  }

  lemma DeliveredKeepsAttempts(op: Operation, now: int)
    requires WellAttempted(op) && Deliverable(op.phase)
    ensures WellAttempted(DeliveredOp(op, now))
  {
  }

  lemma AppliedKeeps(db: Db, id: OpId, sequence: nat)
    requires Inv(db) && id in db.outbox && db.outbox[id].phase == InFlight
    ensures Inv(MarkApplied(db, id, sequence))
  {
    var op := db.outbox[id];
    assert OpLinked(db.rows, op) && WellAttempted(op);
    AppliedKeepsAttempts(op, sequence);
    MoveKeeps(db, id, AppliedOp(op, sequence), AppliedRow(db.rows[op.agent], id, op.dormant, sequence));
  }

  lemma RejectedKeeps(db: Db, id: OpId, latest: map<ThreadId, Observation>)
    requires Inv(db) && id in db.outbox && db.outbox[id].phase == InFlight && db.outbox[id].agent in db.rows
    ensures Inv(MarkRejected(db, id, latest))
  {
    var op := db.outbox[id];
    var row := db.rows[op.agent];
    assert OpLinked(db.rows, op) && WellAttempted(op) && OpPending(db.rows, id, op)
      && PendingCurrent(db.outbox, op.agent, row);
    RejectedKeepsAttempts(row, op, latest);
    MoveKeeps(db, id, RejectedOp(row, op, latest), row);
    assert db.rows == db.rows[op.agent := row];
  }

  lemma ConfirmKeeps(x: Exchange, host: Host, latest: map<ThreadId, Observation>, ack: Confirmation)
    requires Inv(x.db) && Confirm(x, host, latest, ack).Success?
    ensures Inv(Confirm(x, host, latest, ack).value.db)
  {
    if Answers(x.db, host, ack) {
      match ack.outcome
      case AppliedAt(sequence) => AppliedKeeps(x.db, ack.operation, sequence);
      case Rejected => RejectedKeeps(x.db, ack.operation, latest);
    }
  }

  lemma {:induction false} ConfirmAllKeeps(
    x: Exchange, host: Host, latest: map<ThreadId, Observation>, acks: seq<Confirmation>)
    requires Inv(x.db) && ConfirmAll(x, host, latest, acks).Success?
    ensures Inv(ConfirmAll(x, host, latest, acks).value.db)
  {
    if acks != [] {
      var n := |acks| - 1;
      ConfirmAllKeeps(x, host, latest, acks[..n]);
      ConfirmKeeps(ConfirmAll(x, host, latest, acks[..n]).value, host, latest, acks[n]);
    }
  }

  lemma StoreKeeps(db: Db, agent: AgentId, o: Observation)
    requires Inv(db) && agent in db.rows && db.rows[agent].floor <= o.sequence
    ensures Inv(StoreObservation(db, agent, o))
  {
    HarmlessKeeps(db, agent, StoreObservation(db, agent, o).rows[agent]);
  }

  lemma ObserveAsKeeps(x: Exchange, agent: AgentId, o: Observation)
    requires Inv(x.db) && agent in x.db.rows && x.db.rows[agent].floor <= o.sequence
    ensures Inv(ObserveAs(x, agent, o).db)
  {
    if !Stale(x.db.rows[agent], o) {
      if Overrides(x, agent, o) {
        RecordKeeps(x.db, agent, o.explicit == Some(Settled), true);
        StoreKeeps(RecordChange(x.db, agent, o.explicit == Some(Settled), true), agent, o);
      } else {
        StoreKeeps(x.db, agent, o);
      }
    }
  }

  lemma ObserveKeeps(x: Exchange, host: Host, o: Observation)
    requires Inv(x.db) && Observe(x, host, o).Success?
    ensures Inv(Observe(x, host, o).value.db)
  {
    if agent :| Listens(x.db, host, o, agent) {
      forall a | Listens(x.db, host, o, a) ensures Inv(ObserveAs(x, a, o).db) {
        ObserveAsKeeps(x, a, o);
      }
    }
  }

  lemma {:induction false} ObserveAllKeeps(x: Exchange, host: Host, observations: seq<Observation>)
    requires Inv(x.db) && ObserveAll(x, host, observations).Success?
    ensures Inv(ObserveAll(x, host, observations).value.db)
  {
    if observations != [] {
      var n := |observations| - 1;
      ObserveAllKeeps(x, host, observations[..n]);
      ObserveKeeps(ObserveAll(x, host, observations[..n]).value, host, observations[n]);
    }
  }

  lemma AbsorbKeeps(db: Db, host: Host, observations: seq<Observation>, acks: seq<Confirmation>)
    requires Inv(db) && Absorb(db, host, observations, acks).Success?
    ensures Inv(Absorb(db, host, observations, acks).value)
  {
    var x := Exchange(db, map[]);
    ConfirmAllKeeps(x, host, Latest(observations), acks);
    ObserveAllKeeps(ConfirmAll(x, host, Latest(observations), acks).value, host, observations);
  }

  /** A candidate is the only uncertain operation of its agent, or there is none. */
  lemma CandidateAlone(db: Db, host: Host, id: OpId, other: OpId)
    requires Inv(db) && Candidate(db, host, id)
    requires other in db.outbox && other != id && db.outbox[other].agent == db.outbox[id].agent
    ensures db.outbox[other].phase != InFlight
  {
    var op := db.outbox[id];
    assert OpLinked(db.rows, op) && OpLinked(db.rows, db.outbox[other]);
    assert OpPending(db.rows, id, op) && PendingCurrent(db.outbox, op.agent, db.rows[op.agent]);
  }

  lemma DeliverKeeps(db: Db, host: Host, id: OpId, now: int)
    requires Inv(db) && Candidate(db, host, id)
    ensures Inv(Deliver(db, id, now))
  {
    var op := db.outbox[id];
    var row := db.rows[op.agent];
    assert OpLinked(db.rows, op) && WellAttempted(op) && OpPending(db.rows, id, op)
      && PendingCurrent(db.outbox, op.agent, row);
    DeliveredKeepsAttempts(op, now);
    forall p | p in db.outbox && p != id && db.outbox[p].agent == op.agent ensures db.outbox[p].phase != InFlight {
      CandidateAlone(db, host, id, p);
    }
    MoveKeeps(db, id, DeliveredOp(op, now), row);
    assert db.rows == db.rows[op.agent := row];
  }

  lemma SelectKeeps(db: Db, host: Host, latest: map<ThreadId, Observation>, now: int)
    requires Inv(db)
    ensures Inv(Select(db, host, latest, now).0)
  {
    forall id | Chosen(db, host, latest, id) ensures Inv(Deliver(db, id, now)) {
      DeliverKeeps(db, host, id, now);
    }
  }

  lemma SyncKeeps(db: Db, host: Host, observations: seq<Observation>, acks: seq<Confirmation>, now: int)
    requires Inv(db) && Sync(db, host, observations, acks, now).Success?
    ensures Inv(Sync(db, host, observations, acks, now).value.0)
  {
    AbsorbKeeps(db, host, observations, acks);
    SelectKeeps(Absorb(db, host, observations, acks).value, host, Latest(observations), now);
  }

  lemma ApplyKeeps(db: Db, step: Step)
    requires Inv(db)
    ensures Inv(Apply(db, step))
  {
    match step
    case BindStep(agent, host, thread, op) =>
      if Bind(db, agent, host, thread, op).Success? { BindKeeps(db, agent, host, thread, op); }
    case SetStep(choice) =>
      if Set(db, choice).Success? { SetKeeps(db, choice); }
    case SyncStep(host, observations, acks, now) =>
      if Sync(db, host, observations, acks, now).Success? { SyncKeeps(db, host, observations, acks, now); }
  }

  /** The invariant holds in every reachable state. */
  lemma {:induction false} Reachable(steps: seq<Step>)
    ensures Inv(Run(EMPTY_DB, steps))
  {
    if steps != [] {
      Reachable(steps[..|steps| - 1]);
      ApplyKeeps(Run(EMPTY_DB, steps[..|steps| - 1]), steps[|steps| - 1]);
    }
  }
}
