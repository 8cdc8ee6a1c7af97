/** A report heard once is idle for ever: sent again without receipts, after any
    run and by any host, it makes no choice for the agents that heard it. */
module TrackingReplay {
  import opened Wrappers
  import opened TrackingModel
  import opened TrackingInvariant
  import opened TrackingHistory

  /** The row is at least as recent as `o`. */
  predicate Heard(row: Row, o: Observation) {
    o.sequence < row.sequence || (o.sequence == row.sequence && Seen(row))
  }

  predicate Bound(rows: Rows, agent: AgentId, thread: ThreadId) {
    agent in rows && rows[agent].thread == Some(thread)
  }

  lemma AdvanceStaysHeard(r: Row, s: Row, o: Observation)
    requires RowAdvances(r, s) && Heard(r, o)
    ensures Heard(s, o)
  {
  }

  lemma ObserveIsHeard(x: Exchange, host: Host, o: Observation, agent: AgentId)
    requires Inv(x.db) && Observe(x, host, o).Success?
    requires Bound(x.db.rows, agent, o.thread) && x.db.rows[agent].host == host
    ensures Heard(Observe(x, host, o).value.db.rows[agent], o)
  {
    if Listens(x.db, host, o, agent) {
      assert forall a | Listens(x.db, host, o, a) :: a == agent;
    }
  }

  lemma ConfirmKeepsHosts(
    x: Exchange, host: Host, latest: map<ThreadId, Observation>, ack: Confirmation, agent: AgentId)
    requires Confirm(x, host, latest, ack).Success? && agent in x.db.rows
    ensures agent in Confirm(x, host, latest, ack).value.db.rows
    ensures Confirm(x, host, latest, ack).value.db.rows[agent].host == x.db.rows[agent].host
  {
  }

  lemma {:induction false} ConfirmAllKeepsHosts(
    x: Exchange, host: Host, latest: map<ThreadId, Observation>, acks: seq<Confirmation>, agent: AgentId)
    requires ConfirmAll(x, host, latest, acks).Success? && agent in x.db.rows
    ensures agent in ConfirmAll(x, host, latest, acks).value.db.rows
    ensures ConfirmAll(x, host, latest, acks).value.db.rows[agent].host == x.db.rows[agent].host
  {
    if acks != [] {
      var n := |acks| - 1;
      ConfirmAllKeepsHosts(x, host, latest, acks[..n], agent);
      ConfirmKeepsHosts(ConfirmAll(x, host, latest, acks[..n]).value, host, latest, acks[n], agent);
    }
  }

  lemma {:induction false} ObserveAllKeepsHosts(x: Exchange, host: Host, observations: seq<Observation>, agent: AgentId)
    requires ObserveAll(x, host, observations).Success? && agent in x.db.rows
    ensures agent in ObserveAll(x, host, observations).value.db.rows
    ensures ObserveAll(x, host, observations).value.db.rows[agent].host == x.db.rows[agent].host
  {
    if observations != [] {
      ObserveAllKeepsHosts(x, host, observations[..|observations| - 1], agent);
    }
  }

  lemma {:induction false} ObserveAllIsHeard(
    x: Exchange, host: Host, observations: seq<Observation>, i: nat, agent: AgentId)
    requires Inv(x.db) && ObserveAll(x, host, observations).Success? && i < |observations|
    requires Bound(x.db.rows, agent, observations[i].thread) && x.db.rows[agent].host == host
    ensures agent in ObserveAll(x, host, observations).value.db.rows
    ensures Heard(ObserveAll(x, host, observations).value.db.rows[agent], observations[i])
  {
    var n := |observations| - 1;
    var y := ObserveAll(x, host, observations[..n]).value;
    ObserveAllKeeps(x, host, observations[..n]);
    ObserveAllAdvances(x, host, observations[..n]);
    ObserveAdvances(y, host, observations[n]);
    if i == n {
      ObserveAllKeepsHosts(x, host, observations[..n], agent);
      assert RowAdvances(x.db.rows[agent], y.db.rows[agent]);
      ObserveIsHeard(y, host, observations[n], agent);
    } else {
      ObserveAllIsHeard(x, host, observations[..n], i, agent);
      AdvanceStaysHeard(y.db.rows[agent], Observe(y, host, observations[n]).value.db.rows[agent], observations[i]);
    }
  }

  lemma AbsorbIsHeard(
    db: Db, host: Host, observations: seq<Observation>, acks: seq<Confirmation>, i: nat, agent: AgentId)
    requires Inv(db) && Absorb(db, host, observations, acks).Success? && i < |observations|
    requires Bound(db.rows, agent, observations[i].thread) && db.rows[agent].host == host
    ensures agent in Absorb(db, host, observations, acks).value.rows
    ensures Heard(Absorb(db, host, observations, acks).value.rows[agent], observations[i])
  {
    var x := Exchange(db, map[]);
    var y := ConfirmAll(x, host, Latest(observations), acks).value;
    ConfirmAllKeeps(x, host, Latest(observations), acks);
    ConfirmAllAdvances(x, host, Latest(observations), acks);
    ConfirmAllKeepsHosts(x, host, Latest(observations), acks, agent);
    assert RowAdvances(db.rows[agent], y.db.rows[agent]);
    ObserveAllIsHeard(y, host, observations, i, agent);
  }

  lemma SyncRows(db: Db, host: Host, observations: seq<Observation>, acks: seq<Confirmation>, now: int)
    requires Sync(db, host, observations, acks, now).Success?
    ensures Absorb(db, host, observations, acks).Success?
    ensures Sync(db, host, observations, acks, now).value.0.rows == Absorb(db, host, observations, acks).value.rows
  {
  }

  /** Once an exchange with any receipts has shown `o` to the agent of its thread,
      the agent is past `o` after any run. */
  lemma HeardForEver(
    db: Db, host: Host, observations: seq<Observation>, acks: seq<Confirmation>, now: int, steps: seq<Step>,
    i: nat, agent: AgentId)
    requires Inv(db) && Sync(db, host, observations, acks, now).Success? && i < |observations|
    requires Bound(db.rows, agent, observations[i].thread) && db.rows[agent].host == host
    ensures var later := Run(Sync(db, host, observations, acks, now).value.0, steps);
            && Inv(later) && Bound(later.rows, agent, observations[i].thread)
            && Heard(later.rows[agent], observations[i])
  {
    var next := Sync(db, host, observations, acks, now).value.0;
    SyncRows(db, host, observations, acks, now);
    AbsorbIsHeard(db, host, observations, acks, i, agent);
    SyncAdvances(db, host, observations, acks, now);
    SyncKeeps(db, host, observations, acks, now);
    StaysBound(db, next, steps, observations[i], agent);
  }

  lemma StaysBound(db: Db, next: Db, steps: seq<Step>, o: Observation, agent: AgentId)
    requires Inv(next) && Advances(db, next) && Bound(db.rows, agent, o.thread) && Heard(next.rows[agent], o)
    ensures Inv(Run(next, steps)) && Bound(Run(next, steps).rows, agent, o.thread)
    ensures Heard(Run(next, steps).rows[agent], o)
  {
    RunAdvances(next, steps);
    assert RowAdvances(db.rows[agent], next.rows[agent]);
    AdvanceStaysHeard(next.rows[agent], Run(next, steps).rows[agent], o);
  }

  // ------------------------------------------------------------------- the replay

  /** The agent is past every observation of its thread. */
  ghost predicate Past(rows: Rows, agent: AgentId, observations: seq<Observation>) {
    agent in rows
    && forall i | 0 <= i < |observations| && rows[agent].thread == Some(observations[i].thread) ::
         Heard(rows[agent], observations[i])
  }

  /** Nothing was journalled for `agent`. */
  ghost predicate Silent(events: seq<Event>, next: seq<Event>, agent: AgentId) {
    events <= next && forall k | |events| <= k < |next| :: next[k].agent != agent
  }

  /** An observation already heard makes no choice. */
  lemma HeardIsIdle(x: Exchange, host: Host, o: Observation, agent: AgentId)
    requires Inv(x.db) && x.confirmed == map[] && o.sequence <= MAX_I64 && agent in x.db.rows
    requires x.db.rows[agent].thread == Some(o.thread) ==> Heard(x.db.rows[agent], o)
    ensures Observe(x, host, o).Success? && Observe(x, host, o).value.confirmed == map[]
    ensures Silent(x.db.events, Observe(x, host, o).value.db.events, agent)
    ensures Observe(x, host, o).value.db.rows[agent].thread == x.db.rows[agent].thread
  {
  }

  lemma {:induction false} PastIsSilent(x: Exchange, host: Host, observations: seq<Observation>, agent: AgentId)
    requires Inv(x.db) && x.confirmed == map[] && Past(x.db.rows, agent, observations)
    requires forall i | 0 <= i < |observations| :: observations[i].sequence <= MAX_I64
    ensures ObserveAll(x, host, observations).Success? && ObserveAll(x, host, observations).value.confirmed == map[]
    ensures Silent(x.db.events, ObserveAll(x, host, observations).value.db.events, agent)
    ensures agent in ObserveAll(x, host, observations).value.db.rows
    ensures ObserveAll(x, host, observations).value.db.rows[agent].thread == x.db.rows[agent].thread
  {
    if observations != [] {
      var n := |observations| - 1;
      PastIsSilent(x, host, observations[..n], agent);
      var y := ObserveAll(x, host, observations[..n]).value;
      ObserveAllKeeps(x, host, observations[..n]);
      ObserveAllAdvances(x, host, observations[..n]);
      assert RowAdvances(x.db.rows[agent], y.db.rows[agent]);
      HeardIsIdle(y, host, observations[n], agent);
    }
  }

  lemma {:induction false} AcceptedSequences(x: Exchange, host: Host, observations: seq<Observation>)
    requires ObserveAll(x, host, observations).Success?
    ensures forall i | 0 <= i < |observations| :: observations[i].sequence <= MAX_I64
  {
    if observations != [] {
      AcceptedSequences(x, host, observations[..|observations| - 1]);
    }
  }

  lemma PastForEver(
    db: Db, host: Host, observations: seq<Observation>, acks: seq<Confirmation>, now: int, steps: seq<Step>,
    i: nat, agent: AgentId)
    requires Inv(db) && Sync(db, host, observations, acks, now).Success? && i < |observations|
    requires Bound(db.rows, agent, observations[i].thread) && db.rows[agent].host == host
    ensures var later := Run(Sync(db, host, observations, acks, now).value.0, steps);
            Inv(later) && Past(later.rows, agent, observations)
  {
    HeardForEver(db, host, observations, acks, now, steps, i, agent);
    var later := Run(Sync(db, host, observations, acks, now).value.0, steps);
    forall j | 0 <= j < |observations| && later.rows[agent].thread == Some(observations[j].thread)
      ensures Heard(later.rows[agent], observations[j])
    {
      HeardForEver(db, host, observations, acks, now, steps, j, agent);
    }
  }

  lemma ReplayIsSilent(later: Db, again: Host, observations: seq<Observation>, agent: AgentId)
    requires Inv(later) && Past(later.rows, agent, observations) && ValidExchange(again, observations, [])
    requires forall i | 0 <= i < |observations| :: observations[i].sequence <= MAX_I64
    ensures Absorb(later, again, observations, []).Success?
    ensures Silent(later.events, Absorb(later, again, observations, []).value.events, agent)
  {
    PastIsSilent(Exchange(later, map[]), again, observations, agent);
  }

  /** A report taken in once, with any receipts, and sent again without receipts
      after any run is accepted and makes no choice for an agent that was bound
      to the host and to one of the reported threads. */
  lemma ReplayedReportIsIdle(
    db: Db, host: Host, observations: seq<Observation>, acks: seq<Confirmation>, now: int, steps: seq<Step>,
    again: Host, i: nat, agent: AgentId)
    requires Inv(db) && Sync(db, host, observations, acks, now).Success? && 0 < again.bytes <= 256
    requires i < |observations| && Bound(db.rows, agent, observations[i].thread) && db.rows[agent].host == host
    ensures var later := Run(Sync(db, host, observations, acks, now).value.0, steps);
            && Absorb(later, again, observations, []).Success?
            && Silent(later.events, Absorb(later, again, observations, []).value.events, agent)
  {
    PastForEver(db, host, observations, acks, now, steps, i, agent);
    AcceptedSequences(ConfirmAll(Exchange(db, map[]), host, Latest(observations), acks).value, host, observations);
    ReplayIsSilent(Run(Sync(db, host, observations, acks, now).value.0, steps), again, observations, agent);
  }
}
