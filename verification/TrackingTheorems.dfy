/** What the sleep/wake protocol promises, for every reachable state and every run. */
module TrackingTheorems {
  import opened Wrappers
  import opened TrackingModel
  import opened TrackingInvariant
  import opened TrackingHistory
  import opened TrackingReplay

  // -------------------------------------------------------- order of choices

  /** An agent has at most one uncertain order and at most one unsent order, and
      the uncertain one is the older. */
  lemma OneOrderOfEachKind(db: Db, o: OpId, p: OpId)
    requires Inv(db) && o in db.outbox && p in db.outbox && o != p
    requires db.outbox[o].agent == db.outbox[p].agent
    ensures db.outbox[o].revision != db.outbox[p].revision
    ensures !(db.outbox[o].phase == InFlight && db.outbox[p].phase == InFlight)
    ensures !(Unsent(db.outbox[o].phase) && Unsent(db.outbox[p].phase))
    ensures db.outbox[o].phase == InFlight && Unsent(db.outbox[p].phase)
            ==> db.outbox[o].revision < db.outbox[p].revision
  {
    assert OpLinked(db.rows, db.outbox[o]) && OpLinked(db.rows, db.outbox[p]);
    assert OpPending(db.rows, o, db.outbox[o]) && OpPending(db.rows, p, db.outbox[p]);
    assert PendingCurrent(db.outbox, db.outbox[p].agent, db.rows[db.outbox[p].agent]);
  }

  /** The latest entry of the journal for an agent, or the state of a new row. */
  ghost function Replay(events: seq<Event>, agent: AgentId): (bool, bool) {
    if events == [] then (false, true)
    else
      var last := events[|events| - 1];
      if last.agent == agent then (last.dormant, last.synchronize) else Replay(events[..|events| - 1], agent)
  }

  lemma {:induction false} ReplayFinds(events: seq<Event>, agent: AgentId, row: Row)
    requires RowJournalled(events, agent, row)
    ensures row.revision > 0 ==> Replay(events, agent) == (row.dormant, row.synchronize)
    ensures row.revision == 0 ==> Replay(events, agent) == (false, true)
    decreases |events|
  {
    if events != [] {
      var n := |events| - 1;
      if events[n].agent != agent { ReplayFinds(events[..n], agent, row); }
    }
  }

  /** The rows can be rebuilt from the journal. */
  lemma JournalRebuilds(steps: seq<Step>, agent: AgentId)
    ensures var db := Run(EMPTY_DB, steps);
            agent in db.rows ==> Replay(db.events, agent) == (db.rows[agent].dormant, db.rows[agent].synchronize)
  {
    Reachable(steps);
    var db := Run(EMPTY_DB, steps);
    if agent in db.rows {
      assert RowJournalled(db.events, agent, db.rows[agent]);
      ReplayFinds(db.events, agent, db.rows[agent]);
    }
  }

  /** The reader of the directory is told "pending" exactly when an order is
      open for the agent, and never sees a settled status meanwhile. */
  lemma ViewCoherent(db: Db, agent: AgentId)
    requires Inv(db) && agent in db.rows
    ensures var v := ViewOf(db, agent).value;
            && (v.pending <==> v.status in {AwaitingConfirmation, RefusedByClient, WaitingForChange, PendingDelivery})
            && (v.pending <==> exists id | id in db.outbox :: db.outbox[id].agent == agent && Open(db.outbox[id].phase))
  {
    var row := db.rows[agent];
    assert PendingCurrent(db.outbox, agent, row);
    forall id | id in db.outbox && db.outbox[id].agent == agent && Unsent(db.outbox[id].phase)
      ensures row.pendingId.Some?
    {
      assert OpPending(db.rows, id, db.outbox[id]);
    }
  }

  // ------------------------------------------- a pending choice is not undone

  ghost predicate ChoiceHeld(r: Row, s: Row) {
    s.pendingId.Some? ==> SameChoice(r, s)
  }

  ghost predicate ChoicesHeld(rows: Rows, next: Rows) {
    forall a {:trigger ChoiceHeld(rows[a], next[a])} | a in rows :: a in next && ChoiceHeld(rows[a], next[a])
  }

  lemma ChoicesHeldTransitive(r: Rows, s: Rows, t: Rows)
    requires ChoicesHeld(r, s) && ChoicesHeld(s, t) && r.Keys <= s.Keys <= t.Keys
    ensures ChoicesHeld(r, t)
  {
    forall a | a in r ensures ChoiceHeld(r[a], t[a]) {
      assert ChoiceHeld(r[a], s[a]) && ChoiceHeld(s[a], t[a]);
    }
  }

  lemma ConfirmHolds(x: Exchange, host: Host, latest: map<ThreadId, Observation>, ack: Confirmation)
    requires Confirm(x, host, latest, ack).Success?
    ensures Confirm(x, host, latest, ack).value.db.rows.Keys == x.db.rows.Keys
    ensures ChoicesHeld(x.db.rows, Confirm(x, host, latest, ack).value.db.rows)
  {
  }

  lemma ObserveHolds(x: Exchange, host: Host, o: Observation)
    requires Observe(x, host, o).Success?
    ensures Observe(x, host, o).value.db.rows.Keys == x.db.rows.Keys
    ensures ChoicesHeld(x.db.rows, Observe(x, host, o).value.db.rows)
  {
  }

  lemma {:induction false} ConfirmAllHolds(
    x: Exchange, host: Host, latest: map<ThreadId, Observation>, acks: seq<Confirmation>)
    requires ConfirmAll(x, host, latest, acks).Success?
    ensures ConfirmAll(x, host, latest, acks).value.db.rows.Keys == x.db.rows.Keys
    ensures ChoicesHeld(x.db.rows, ConfirmAll(x, host, latest, acks).value.db.rows)
  {
    if acks != [] {
      var n := |acks| - 1;
      var y := ConfirmAll(x, host, latest, acks[..n]).value;
      ConfirmAllHolds(x, host, latest, acks[..n]);
      ConfirmHolds(y, host, latest, acks[n]);
      ChoicesHeldTransitive(x.db.rows, y.db.rows, Confirm(y, host, latest, acks[n]).value.db.rows);
    }
  }

  lemma {:induction false} ObserveAllHolds(x: Exchange, host: Host, observations: seq<Observation>)
    requires ObserveAll(x, host, observations).Success?
    ensures ObserveAll(x, host, observations).value.db.rows.Keys == x.db.rows.Keys
    ensures ChoicesHeld(x.db.rows, ObserveAll(x, host, observations).value.db.rows)
  {
    if observations != [] {
      var n := |observations| - 1;
      var y := ObserveAll(x, host, observations[..n]).value;
      ObserveAllHolds(x, host, observations[..n]);
      ObserveHolds(y, host, observations[n]);
      ChoicesHeldTransitive(x.db.rows, y.db.rows, Observe(y, host, observations[n]).value.db.rows);
    }
  }

  /** An exchange, whatever it reports, leaves the local choice of an agent as it
      was unless it also settled the order that carried this choice. */
  lemma SyncHoldsChoice(db: Db, host: Host, observations: seq<Observation>, acks: seq<Confirmation>, now: int)
    requires Sync(db, host, observations, acks, now).Success?
    ensures var next := Sync(db, host, observations, acks, now).value.0;
            next.rows.Keys == db.rows.Keys && ChoicesHeld(db.rows, next.rows)
  {
    var x := Exchange(db, map[]);
    var y := ConfirmAll(x, host, Latest(observations), acks).value;
    ConfirmAllHolds(x, host, Latest(observations), acks);
    ObserveAllHolds(y, host, observations);
    ChoicesHeldTransitive(db.rows, y.db.rows, ObserveAll(y, host, observations).value.db.rows);
  }

  /** While it stays pending, a choice survives any number of exchanges. */
  lemma {:induction false} ExchangesHoldChoice(db: Db, steps: seq<Step>, agent: AgentId)
    requires forall i | 0 <= i < |steps| :: steps[i].SyncStep?
    requires agent in db.rows
    ensures agent in Run(db, steps).rows
    ensures Run(db, steps).rows[agent].pendingId.Some? ==> SameChoice(db.rows[agent], Run(db, steps).rows[agent])
  {
    if steps != [] {
      var n := |steps| - 1;
      var mid := Run(db, steps[..n]);
      ExchangesHoldChoice(db, steps[..n], agent);
      match steps[n] {
        case SyncStep(host, observations, acks, now) =>
          if Sync(mid, host, observations, acks, now).Success? {
            SyncHoldsChoice(mid, host, observations, acks, now);
            assert ChoiceHeld(mid.rows[agent], Apply(mid, steps[n]).rows[agent]);
          }
      }
    }
  }

  // ------------------------------------------------------- keys of deliveries

  /** The primary key of the receipts is free whenever an answer is accepted. */
  lemma ReceiptNeverIgnored(db: Db, host: Host, ack: Confirmation)
    requires Inv(db) && Answers(db, host, ack)
    ensures ack.attempt !in db.outbox[ack.operation].receipts
  {
    assert WellAttempted(db.outbox[ack.operation]);
  }

  /** A delivery with attempt k follows a recorded rejection of every earlier
      attempt and no answer to k; an uncertain order is repeated, never renewed;
      without synchronisation only an uncertain order is repeated. */
  lemma DeliveryKeyed(db: Db, host: Host, observations: seq<Observation>, acks: seq<Confirmation>, now: int)
    requires Inv(db) && Sync(db, host, observations, acks, now).Success?
    requires Sync(db, host, observations, acks, now).value.1.Some?
    ensures var absorbed := Absorb(db, host, observations, acks).value;
            var (next, sent) := Sync(db, host, observations, acks, now).value;
            var command := sent.value;
            var id := command.operation;
            && id in absorbed.outbox && id in next.outbox && absorbed.outbox[id].agent in absorbed.rows
            && command.attempt <= 2
            && command.attempt == next.outbox[id].attempt && next.outbox[id].phase == InFlight
            && (forall k: nat | k < command.attempt :: WasRejected(absorbed.outbox[id].receipts, k))
            && command.attempt !in absorbed.outbox[id].receipts
            && command.dormant == absorbed.outbox[id].dormant
            && (absorbed.outbox[id].phase == InFlight ==> command.attempt == absorbed.outbox[id].attempt)
            && (absorbed.outbox[id].phase != InFlight ==>
                  absorbed.rows[absorbed.outbox[id].agent].synchronize
                    && command.dormant == absorbed.rows[absorbed.outbox[id].agent].dormant)
  {
    AbsorbKeeps(db, host, observations, acks);
    SyncKeeps(db, host, observations, acks, now);
    var absorbed := Absorb(db, host, observations, acks).value;
    var (next, sent) := Sync(db, host, observations, acks, now).value;
    var id := sent.value.operation;
    var op := absorbed.outbox[id];
    assert OpLinked(absorbed.rows, op);
    assert OpPending(absorbed.rows, id, op) && PendingCurrent(absorbed.outbox, op.agent, absorbed.rows[op.agent]);
    assert WellAttempted(next.outbox[id]);
  }

  /** What the sync that ends in `next` delivered: `key` is now uncertain, all
      earlier attempts are rejected and it has no answer. */
  ghost predicate InDelivery(next: Db, command: Command) {
    && command.operation in next.outbox
    && var op := next.outbox[command.operation];
       && op.phase == InFlight
       && command == Command(op.thread, command.operation, op.dormant, op.attempt)
       && WellAttempted(op)
  }

  lemma SyncDelivers(
    db: Db, host: Host, observations: seq<Observation>, acks: seq<Confirmation>, now: int, next: Db, command: Command)
    requires Inv(db) && Sync(db, host, observations, acks, now) == Success((next, Some(command)))
    ensures Inv(next) && InDelivery(next, command)
  {
    SyncKeeps(db, host, observations, acks, now);
    assert WellAttempted(next.outbox[command.operation]);
  }

  /** Between two deliveries of the same order, whatever happens in between, the
      command identifier is the same unless the first one was certainly rejected. */
  lemma SameKeyUntilRejected(
    db: Db, host: Host, observations: seq<Observation>, acks: seq<Confirmation>, now: int, sent: Db, first: Command,
    steps: seq<Step>,
    host': Host, observations': seq<Observation>, acks': seq<Confirmation>, now': int, last: Db, again: Command)
    requires Inv(db) && Sync(db, host, observations, acks, now) == Success((sent, Some(first)))
    requires Sync(Run(sent, steps), host', observations', acks', now') == Success((last, Some(again)))
    requires again.operation == first.operation
    ensures first.attempt <= again.attempt && first.operation in last.outbox
    ensures first.attempt != again.attempt ==> WasRejected(last.outbox[first.operation].receipts, first.attempt)
    ensures first.dormant == again.dormant && first.thread == again.thread
  {
    SyncDelivers(db, host, observations, acks, now, sent, first);
    RunAdvances(sent, steps);
    SyncAdvances(Run(sent, steps), host', observations', acks', now');
    AdvanceTransitive(sent, Run(sent, steps), last);
    SyncDelivers(Run(sent, steps), host', observations', acks', now', last, again);
    assert OpAdvances(sent.outbox[first.operation], last.outbox[first.operation]);
  }

  // --------------------------------------------------------- old observations

  /** An observation older than what the agent already knows is a no-op. */
  lemma StaleObservationIgnored(x: Exchange, host: Host, o: Observation, agent: AgentId)
    requires Inv(x.db) && agent in x.db.rows && x.db.rows[agent].thread == Some(o.thread)
    requires o.sequence < x.db.rows[agent].sequence && o.sequence <= MAX_I64
    ensures Observe(x, host, o) == Success(x)
  {
  }

  ghost predicate ThreadsDiffer(observations: seq<Observation>) {
    forall i, j | 0 <= i < j < |observations| :: observations[i].thread != observations[j].thread
  }

  ghost predicate Reported(observations: seq<Observation>, thread: ThreadId) {
    exists i :: 0 <= i < |observations| && observations[i].thread == thread
  }

  lemma {:induction false} LatestKeys(observations: seq<Observation>, thread: ThreadId)
    ensures thread in Latest(observations) <==> Reported(observations, thread)
  {
    if observations != [] {
      var n := |observations| - 1;
      LatestKeys(observations[..n], thread);
      if thread in Latest(observations[..n]) {
        var i :| 0 <= i < n && observations[..n][i].thread == thread;
        assert observations[i].thread == thread;
      }
      if Reported(observations, thread) && observations[n].thread != thread {
        var i :| 0 <= i < |observations| && observations[i].thread == thread;
        assert observations[..n][i].thread == thread;
      }
    }
  }

  lemma LatestGrows(front: map<ThreadId, Observation>, o: Observation)
    ensures |front[o.thread := o]| == |front| + if o.thread in front then 0 else 1
  {
  }

  lemma LastDiffers(observations: seq<Observation>)
    requires observations != []
    ensures ThreadsDiffer(observations) <==>
            ThreadsDiffer(observations[..|observations| - 1])
              && !Reported(observations[..|observations| - 1], observations[|observations| - 1].thread)
  {
  }

  /** The report is taken exactly when no thread stands in it twice. */
  lemma {:induction false} LatestDistinct(observations: seq<Observation>)
    ensures |Latest(observations)| <= |observations|
    ensures |Latest(observations)| == |observations| <==> ThreadsDiffer(observations)
  {
    if observations != [] {
      var n := |observations| - 1;
      LatestDistinct(observations[..n]);
      LatestKeys(observations[..n], observations[n].thread);
      LatestGrows(Latest(observations[..n]), observations[n]);
      LastDiffers(observations);
    }
  }

  /** Nothing is left to learn from `o`. */
  ghost predicate Known(db: Db, host: Host, o: Observation) {
    forall a | Listens(db, host, o, a) ::
      var row := db.rows[a];
      || Stale(row, o)
      || (row.sourceRevision == Some(o.sourceRevision) && row.sourceState == o.explicit && row.sequence == o.sequence)
  }

  lemma ObserveMakesKnown(x: Exchange, host: Host, o: Observation)
    requires Inv(x.db) && Observe(x, host, o).Success?
    ensures Known(Observe(x, host, o).value.db, host, o)
  {
  }

  lemma ObserveKeepsKnown(x: Exchange, host: Host, o: Observation, other: Observation)
    requires Inv(x.db) && Observe(x, host, o).Success? && other.thread != o.thread
    requires Known(x.db, host, other)
    ensures Known(Observe(x, host, o).value.db, host, other)
  {
  }

  lemma {:induction false} ObserveAllMakesKnown(x: Exchange, host: Host, observations: seq<Observation>, i: nat)
    requires Inv(x.db) && ObserveAll(x, host, observations).Success? && i < |observations|
    requires forall i, j | 0 <= i < j < |observations| :: observations[i].thread != observations[j].thread
    ensures Known(ObserveAll(x, host, observations).value.db, host, observations[i])
  {
    var n := |observations| - 1;
    var y := ObserveAll(x, host, observations[..n]).value;
    ObserveAllKeeps(x, host, observations[..n]);
    if i == n {
      ObserveMakesKnown(y, host, observations[n]);
    } else {
      ObserveAllMakesKnown(x, host, observations[..n], i);
      assert observations[..n][i] == observations[i];
      ObserveKeepsKnown(y, host, observations[n], observations[i]);
    }
  }

  lemma KnownIsIdle(x: Exchange, host: Host, o: Observation)
    requires x.confirmed == map[] && Known(x.db, host, o) && o.sequence <= MAX_I64
    ensures Observe(x, host, o) == Success(x)
  {
    forall agent | Listens(x.db, host, o, agent) ensures ObserveAs(x, agent, o) == x {
      var row := x.db.rows[agent];
      if !Stale(row, o) {
        assert row == row.(sourceRevision := Some(o.sourceRevision), sourceState := o.explicit, sequence := o.sequence);
        assert x.db.rows == x.db.rows[agent := row];
      }
    }
  }

  lemma {:induction false} AllKnownIsIdle(x: Exchange, host: Host, observations: seq<Observation>)
    requires x.confirmed == map[]
    requires forall i | 0 <= i < |observations| ::
            Known(x.db, host, observations[i]) && observations[i].sequence <= MAX_I64
    ensures ObserveAll(x, host, observations) == Success(x)
  {
    if observations != [] {
      var n := |observations| - 1;
      AllKnownIsIdle(x, host, observations[..n]);
      KnownIsIdle(x, host, observations[n]);
    }
  }

  /** While no row has changed since, repeating a report without receipts changes
      nothing at all, whatever happened to the outbox in between. */
  lemma RepeatedReportChangesNothing(db: Db, host: Host, observations: seq<Observation>, between: Db)
    requires Inv(db) && Absorb(db, host, observations, []).Success?
    requires between.rows == Absorb(db, host, observations, []).value.rows
    ensures Absorb(between, host, observations, []) == Success(between)
  {
    var x := Exchange(db, map[]);
    var y := ObserveAll(x, host, observations).value;
    LatestDistinct(observations);
    AcceptedSequences(x, host, observations);
    forall i | 0 <= i < |observations| ensures Known(between, host, observations[i]) {
      ObserveAllMakesKnown(x, host, observations, i);
      assert forall a | Listens(between, host, observations[i], a) :: Listens(y.db, host, observations[i], a);
    }
    AllKnownIsIdle(Exchange(between, map[]), host, observations);
  }

  // ------------------------------------------------------- repeated requests

  /** A request answered once is answered the same way ever after and changes
      nothing; another envelope under its identifier is refused. */
  lemma RequestAnsweredOnce(db: Db, c: Choice, steps: seq<Step>, again: Choice)
    requires Inv(db) && Set(db, c).Success?
    requires again.actor == c.actor && again.request == c.request && again.requestIsUuid
    ensures var later := Run(Set(db, c).value.0, steps);
            Set(later, again) ==
              if again.canonical == c.canonical then Success((later, Set(db, c).value.1))
              else Failure(EnvelopeMismatch)
  {
    var answered := Set(db, c).value.0;
    SetKeeps(db, c);
    RunAdvances(answered, steps);
    assert (c.actor, c.request) in answered.requests;
  }
}
