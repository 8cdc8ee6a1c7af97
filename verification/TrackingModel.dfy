/** The sleep/wake tables and the atomic steps that act on them: the durable
    choice of each agent, the outbox of commands for its remote client, the
    receipt of every attempt and the journal of changes. Each SQL statement is a
    function from tables to tables; a failed transaction is a `Failure`. */
module TrackingModel {
  import opened Wrappers

  /** Agents, operations and actors are opaque keys, compared for equality only. */
  type AgentId = nat
  type OpId = nat
  type Actor = nat

  /** A text the protocol compares for equality and bounds in bytes. */
  datatype Text = Text(token: nat, bytes: nat)

  type ThreadId = Text
  type Host = Text
  type SourceRevision = Text

  const MAX_I64: nat := 0x7FFF_FFFF_FFFF_FFFF
  /** LIMIT of the candidate query. */
  const CANDIDATE_LIMIT: nat := 10000

  datatype Error = InvalidRequest | StorageUnavailable | EnvelopeMismatch | RevisionConflict

  datatype Phase = Queued | InFlight | WaitingSource | Applied | Superseded | Refused

  datatype ClientState = Settled | Active | Unrecognised(text: nat)

  datatype Outcome = AppliedAt(sequence: nat) | Rejected

  datatype Row = Row(
    dormant: bool,
    synchronize: bool,
    revision: nat,
    host: Host,
    thread: Option<ThreadId>,
    sourceRevision: Option<SourceRevision>,
    sourceState: Option<ClientState>,
    pendingId: Option<OpId>,
    floor: nat,
    sequence: nat)

  /** A row of the outbox with its rows of attempt receipts, keyed by attempt. */
  datatype Operation = Operation(
    agent: AgentId,
    revision: nat,
    thread: ThreadId,
    host: Host,
    dormant: bool,
    phase: Phase,
    attempt: nat,
    sourceRevision: Option<SourceRevision>,
    lastAttempt: Option<int>,
    appliedSequence: Option<nat>,
    receipts: map<nat, Outcome>)

  datatype Event = Event(agent: AgentId, dormant: bool, synchronize: bool)

  datatype Status =
    | AwaitingConfirmation
    | RefusedByClient
    | WaitingForChange
    | PendingDelivery
    | LocalOnly
    | NotLinked
    | LastActionApplied

  datatype View = View(dormant: bool, synchronize: bool, revision: nat, pending: bool, status: Status)

  datatype Receipt = Receipt(canonical: Text, result: View)

  datatype Db = Db(
    rows: map<AgentId, Row>,
    outbox: map<OpId, Operation>,
    requests: map<(Actor, OpId), Receipt>,
    events: seq<Event>)

  const EMPTY_DB := Db(map[], map[], map[], [])

  datatype Observation = Observation(
    thread: ThreadId,
    sourceRevision: SourceRevision,
    sequence: nat,
    explicit: Option<ClientState>,
    canSettle: bool)

  datatype Confirmation = Confirmation(thread: ThreadId, operation: OpId, attempt: nat, outcome: Outcome)

  /** One delivery handed to the client. Its command identifier is a fixed
      function of `(operation, attempt)`. */
  datatype Command = Command(thread: ThreadId, operation: OpId, dormant: bool, attempt: nat)

  // ---------------------------------------------------------------- reading

  /** Not yet handed over: no effect on the client has to be preserved. */
  predicate Unsent(p: Phase) {
    p == Queued || p == WaitingSource || p == Refused
  }

  predicate Deliverable(p: Phase) {
    p == Queued || p == InFlight || p == WaitingSource
  }

  predicate HasPhase(db: Db, agent: AgentId, p: Phase) {
    exists id | id in db.outbox :: db.outbox[id].agent == agent && db.outbox[id].phase == p
  }

  predicate HasDeliverable(db: Db, agent: AgentId) {
    exists id | id in db.outbox :: db.outbox[id].agent == agent && Deliverable(db.outbox[id].phase)
  }

  predicate Pending(db: Db, agent: AgentId) {
    HasDeliverable(db, agent) || (agent in db.rows && db.rows[agent].pendingId.Some?)
  }

  predicate PendingIsRefused(db: Db, row: Row) {
    row.pendingId.Some? && row.pendingId.value in db.outbox && db.outbox[row.pendingId.value].phase == Refused
  }

  function StatusOf(db: Db, agent: AgentId, row: Row): Status {
    if HasPhase(db, agent, InFlight) then AwaitingConfirmation
    else if PendingIsRefused(db, row) then RefusedByClient
    else if HasPhase(db, agent, WaitingSource) then WaitingForChange
    else if row.pendingId.Some? then PendingDelivery
    else if !row.synchronize then LocalOnly
    else if row.thread.None? then NotLinked
    else LastActionApplied
  }

  function ViewOf(db: Db, agent: AgentId): Option<View> {
    if agent !in db.rows then None
    else
      var row := db.rows[agent];
      Some(View(row.dormant, row.synchronize, row.revision,
                row.pendingId.Some? || HasDeliverable(db, agent), StatusOf(db, agent, row)))
  }

  // ------------------------------------------------------- local choices

  function NewRow(host: Host, thread: Option<ThreadId>): Row {
    Row(false, true, 0, host, thread, None, None, None, 0, 0)
  }

  /** The revision is the rowid of the appended journal entry. */
  function RecordChange(db: Db, agent: AgentId, dormant: bool, synchronize: bool): Db {
    var events := db.events + [Event(agent, dormant, synchronize)];
    db.(events := events,
        rows := if agent in db.rows
                then db.rows[agent := db.rows[agent].(dormant := dormant, synchronize := synchronize,
                  revision := |events|)]
                else db.rows)
  }

  function SupersededOp(agent: AgentId, op: Operation): Operation {
    if op.agent == agent && Unsent(op.phase) then op.(phase := Superseded) else op
  }

  function Supersede(outbox: map<OpId, Operation>, agent: AgentId): map<OpId, Operation> {
    map id | id in outbox :: SupersededOp(agent, outbox[id])
  }

  function NewOperation(agent: AgentId, row: Row): Operation
    requires row.thread.Some?
  {
    Operation(agent, row.revision, row.thread.value, row.host, row.dormant, Queued, 0, row.sourceRevision, None, None,
      map[])
  }

  predicate Synchronised(row: Row) {
    row.synchronize && row.thread.Some?
  }

  function Enqueued(db: Db, agent: AgentId, op: OpId): Db
    requires agent in db.rows
  {
    var row := db.rows[agent];
    var outbox := Supersede(db.outbox, agent);
    if Synchronised(row) then
      db.(outbox := outbox[op := NewOperation(agent, row)], rows := db.rows[agent := row.(pendingId := Some(op))])
    else
      db.(outbox := outbox, rows := db.rows[agent := row.(pendingId := None)])
  }

  /** An operation identifier already used makes the INSERT, hence the whole
      transaction, fail. */
  function Enqueue(db: Db, agent: AgentId, op: OpId): Result<Db, Error>
    requires agent in db.rows
  {
    if Synchronised(db.rows[agent]) && op in db.outbox then Failure(StorageUnavailable)
    else Success(Enqueued(db, agent, op))
  }

  predicate ThreadTaken(db: Db, agent: AgentId, thread: ThreadId) {
    exists b | b in db.rows :: b != agent && db.rows[b].thread == Some(thread)
  }

  /** The UPSERT of `bind`: a thread already bound to another agent violates the
      UNIQUE column; an agent bound to another thread keeps it. */
  function BindRow(db: Db, agent: AgentId, host: Host, thread: ThreadId): Result<Db, Error> {
    if agent !in db.rows || db.rows[agent].thread.None? then
      if ThreadTaken(db, agent, thread) then Failure(StorageUnavailable)
      else
        var row := if agent in db.rows then db.rows[agent] else NewRow(host, None);
        Success(db.(rows := db.rows[agent := row.(host := host, thread := Some(thread))]))
    else if db.rows[agent].thread == Some(thread) then
      Success(db.(rows := db.rows[agent := db.rows[agent].(host := host)]))
    else
      Success(db)
  }

  predicate NeedsSync(db: Db, agent: AgentId)
    requires agent in db.rows
  {
    && db.rows[agent].revision > 0
    && db.rows[agent].synchronize
    && db.rows[agent].sourceRevision.None?
    && !exists id | id in db.outbox :: db.outbox[id].agent == agent
  }

  function Bind(db: Db, agent: AgentId, host: Host, thread: ThreadId, op: OpId): Result<Db, Error> {
    match BindRow(db, agent, host, thread)
    case Failure(e) => Failure(e)
    case Success(bound) => if NeedsSync(bound, agent) then Enqueue(bound, agent, op) else Success(bound)
  }

  datatype Choice = Choice(
    actor: Actor,
    request: OpId,
    requestIsUuid: bool,
    canonical: Text,
    agent: AgentId,
    host: Host,
    dormant: bool,
    synchronize: Option<bool>,
    expected: Option<nat>)

  function KnownRevision(db: Db, agent: AgentId): nat {
    if agent in db.rows then db.rows[agent].revision else 0
  }

  function ChosenSync(db: Db, c: Choice): bool {
    if c.synchronize.Some? then c.synchronize.value
    else c.agent !in db.rows || db.rows[c.agent].synchronize
  }

  predicate Changes(db: Db, c: Choice) {
    c.agent !in db.rows
    || PendingIsRefused(db, db.rows[c.agent])
    || db.rows[c.agent].dormant != c.dormant
    || db.rows[c.agent].synchronize != ChosenSync(db, c)
  }

  function WithRow(db: Db, agent: AgentId, host: Host): Db {
    if agent in db.rows then db else db.(rows := db.rows[agent := NewRow(host, None)])
  }

  function Decide(db: Db, c: Choice): Result<Db, Error> {
    var base := WithRow(db, c.agent, c.host);
    if Changes(db, c)
    then Enqueue(RecordChange(base, c.agent, c.dormant, ChosenSync(db, c)), c.agent, c.request)
    else Success(base)
  }

  function Answer(db: Db, c: Choice): Result<(Db, View), Error> {
    var view := ViewOf(db, c.agent);
    if view.None? then Failure(StorageUnavailable)
    else Success((db.(requests := db.requests[(c.actor, c.request) := Receipt(c.canonical, view.value)]), view.value))
  }

  function Set(db: Db, c: Choice): Result<(Db, View), Error> {
    if !c.requestIsUuid then Failure(InvalidRequest)
    else if (c.actor, c.request) in db.requests then
      var receipt := db.requests[(c.actor, c.request)];
      if receipt.canonical == c.canonical then Success((db, receipt.result)) else Failure(EnvelopeMismatch)
    else if c.expected.Some? && c.expected.value != KnownRevision(db, c.agent) then Failure(RevisionConflict)
    else
      match Decide(db, c)
      case Failure(e) => Failure(e)
      case Success(decided) => Answer(decided, c)
  }

  // -------------------------------------------------------- exchange with a host

  predicate ValidObservation(o: Observation) {
    && 0 < o.thread.bytes <= 2048
    && 0 < o.sourceRevision.bytes <= 128
    && (o.explicit.Some? ==> !o.explicit.value.Unrecognised?)
  }

  /** The last observation of each thread. */
  function Latest(observations: seq<Observation>): map<ThreadId, Observation> {
    if observations == [] then map[]
    else
      var n := |observations| - 1;
      Latest(observations[..n])[observations[n].thread := observations[n]]
  }

  predicate ValidExchange(host: Host, observations: seq<Observation>, confirmations: seq<Confirmation>) {
    && 0 < host.bytes <= 256
    && |observations| <= 10000
    && |confirmations| <= 128
    && (forall i | 0 <= i < |observations| :: ValidObservation(observations[i]))
    && |Latest(observations)| == |observations|
  }

  /** The transaction in progress and the outcomes confirmed so far in it. */
  datatype Exchange = Exchange(db: Db, confirmed: map<ThreadId, bool>)

  predicate Answers(db: Db, host: Host, ack: Confirmation) {
    && ack.operation in db.outbox
    && var op := db.outbox[ack.operation];
       && op.thread == ack.thread
       && op.host == host
       && op.phase == InFlight
       && op.attempt == ack.attempt
  }

  /** INSERT OR IGNORE. */
  function LogAttempt(op: Operation, outcome: Outcome): Operation {
    if op.attempt in op.receipts then op else op.(receipts := op.receipts[op.attempt := outcome])
  }

  function StateOf(dormant: bool): ClientState {
    if dormant then Settled else Active
  }

  function Max(a: nat, b: nat): nat {
    if a < b then b else a
  }

  function AppliedRow(row: Row, id: OpId, dormant: bool, sequence: nat): Row {
    row.(floor := sequence,
         sourceState := if row.sequence <= sequence then Some(StateOf(dormant)) else row.sourceState,
         sourceRevision := if row.sequence <= sequence then None else row.sourceRevision,
         sequence := Max(row.sequence, sequence),
         pendingId := if row.pendingId == Some(id) then None else row.pendingId)
  }

  function AppliedOp(op: Operation, sequence: nat): Operation {
    LogAttempt(op, AppliedAt(sequence)).(phase := Applied, appliedSequence := Some(sequence))
  }

  function MarkApplied(db: Db, id: OpId, sequence: nat): Db
    requires id in db.outbox
  {
    var op := db.outbox[id];
    db.(outbox := db.outbox[id := AppliedOp(op, sequence)],
        rows := if op.agent in db.rows
                then db.rows[op.agent := AppliedRow(db.rows[op.agent], id, op.dormant, sequence)]
                else db.rows)
  }

  /** Three departures at most; a refusal overtaken by a later choice is closed. */
  function RejectedPhase(row: Row, op: Operation): Phase {
    if row.revision > op.revision then Superseded
    else if op.attempt < 2 then WaitingSource
    else Refused
  }

  function RejectedOp(row: Row, op: Operation, latest: map<ThreadId, Observation>): Operation {
    var seen := if op.thread in latest then Some(latest[op.thread].sourceRevision) else op.sourceRevision;
    LogAttempt(op, Rejected).(phase := RejectedPhase(row, op), sourceRevision := seen)
  }

  function MarkRejected(db: Db, id: OpId, latest: map<ThreadId, Observation>): Db
    requires id in db.outbox && db.outbox[id].agent in db.rows
  {
    var op := db.outbox[id];
    db.(outbox := db.outbox[id := RejectedOp(db.rows[op.agent], op, latest)])
  }

  function Confirm(
    x: Exchange, host: Host, latest: map<ThreadId, Observation>, ack: Confirmation): Result<Exchange, Error> {
    if !Answers(x.db, host, ack) then Success(x)
    else
      var op := x.db.outbox[ack.operation];
      match ack.outcome
      case AppliedAt(sequence) =>
        if sequence > MAX_I64 then Failure(InvalidRequest)
        else Success(Exchange(MarkApplied(x.db, ack.operation, sequence), x.confirmed[ack.thread := op.dormant]))
      case Rejected =>
        if op.agent !in x.db.rows then Failure(StorageUnavailable)
        else Success(x.(db := MarkRejected(x.db, ack.operation, latest)))
  }

  predicate Listens(db: Db, host: Host, o: Observation, agent: AgentId) {
    && agent in db.rows
    && db.rows[agent].thread == Some(o.thread)
    && db.rows[agent].host == host
    && db.rows[agent].floor <= o.sequence
  }

  predicate Stale(row: Row, o: Observation) {
    || o.sequence < row.sequence
    || (&& o.sequence == row.sequence
        && (|| (row.sourceRevision.Some? && row.sourceRevision.value != o.sourceRevision)
            || ((row.sourceRevision.Some? || row.sourceState.Some?) && row.sourceState != o.explicit)))
  }

  predicate NewerChoice(confirmed: map<ThreadId, bool>, o: Observation) {
    o.thread in confirmed && o.explicit == Some(StateOf(!confirmed[o.thread]))
  }

  /** The observation carries a choice made on the client. */
  predicate Overrides(x: Exchange, agent: AgentId, o: Observation)
    requires agent in x.db.rows
  {
    var row := x.db.rows[agent];
    && row.synchronize
    && !Pending(x.db, agent)
    && (|| (o.explicit != row.sourceState && row.sourceRevision != Some(o.sourceRevision))
        || NewerChoice(x.confirmed, o))
    && o.explicit.Some?
    && (o.explicit == Some(Settled)) != row.dormant
  }

  function StoreObservation(db: Db, agent: AgentId, o: Observation): Db
    requires agent in db.rows
  {
    db.(rows := db.rows[agent := db.rows[agent].(sourceRevision := Some(o.sourceRevision),
                                                 sourceState := o.explicit,
                                                 sequence := o.sequence)])
  }

  function ObserveAs(x: Exchange, agent: AgentId, o: Observation): Exchange
    requires agent in x.db.rows
  {
    if Stale(x.db.rows[agent], o) then x
    else
      var db := if Overrides(x, agent, o) then RecordChange(x.db, agent, o.explicit == Some(Settled), true) else x.db;
      x.(db := StoreObservation(db, agent, o))
  }

  ghost function Observe(x: Exchange, host: Host, o: Observation): Result<Exchange, Error> {
    if o.sequence > MAX_I64 then Failure(InvalidRequest)
    else if agent :| Listens(x.db, host, o, agent) then Success(ObserveAs(x, agent, o))
    else Success(x)
  }

  function ConfirmAll(
    x: Exchange, host: Host, latest: map<ThreadId, Observation>, acks: seq<Confirmation>): Result<Exchange, Error> {
    if acks == [] then Success(x)
    else
      var n := |acks| - 1;
      match ConfirmAll(x, host, latest, acks[..n])
      case Failure(e) => Failure(e)
      case Success(y) => Confirm(y, host, latest, acks[n])
  }

  ghost function ObserveAll(x: Exchange, host: Host, observations: seq<Observation>): Result<Exchange, Error> {
    if observations == [] then Success(x)
    else
      var n := |observations| - 1;
      match ObserveAll(x, host, observations[..n])
      case Failure(e) => Failure(e)
      case Success(y) => Observe(y, host, observations[n])
  }

  // ------------------------------------------------------- fair selection

  /** ORDER BY last_attempt_at IS NOT NULL, last_attempt_at, revision. */
  predicate Precedes(a: Operation, b: Operation) {
    match (a.lastAttempt, b.lastAttempt)
    case (None, Some(_)) => true
    case (Some(_), None) => false
    case (None, None) => a.revision < b.revision
    case (Some(s), Some(t)) => s < t || (s == t && a.revision < b.revision)
  }

  predicate Candidate(db: Db, host: Host, id: OpId) {
    && id in db.outbox
    && db.outbox[id].host == host
    && Deliverable(db.outbox[id].phase)
    && db.outbox[id].agent in db.rows
    && !Blocked(db, id)
  }

  /** An earlier operation of the same agent is still uncertain. */
  predicate Blocked(db: Db, id: OpId)
    requires id in db.outbox
  {
    exists older | older in db.outbox ::
      && db.outbox[older].agent == db.outbox[id].agent
      && db.outbox[older].revision < db.outbox[id].revision
      && db.outbox[older].phase == InFlight
  }

  predicate Usable(row: Row, o: Observation) {
    && o.sequence >= row.floor
    && o.sequence >= row.sequence
    && (row.sourceRevision.None? || o.sourceRevision == row.sourceRevision.value)
  }

  predicate Eligible(db: Db, latest: map<ThreadId, Observation>, id: OpId)
    requires id in db.outbox && db.outbox[id].agent in db.rows
  {
    var op := db.outbox[id];
    var usable := op.thread in latest && Usable(db.rows[op.agent], latest[op.thread]);
    || op.phase == InFlight
    || (&& (op.dormant ==> usable && latest[op.thread].canSettle)
        && (op.phase == WaitingSource ==>
              usable && (op.sourceRevision.None? || latest[op.thread].sourceRevision != op.sourceRevision.value)))
  }

  function Before(db: Db, host: Host, id: OpId): set<OpId>
    requires id in db.outbox
  {
    set other | other in db.outbox && Candidate(db, host, other) && Precedes(db.outbox[other], db.outbox[id])
  }

  predicate Chosen(db: Db, host: Host, latest: map<ThreadId, Observation>, id: OpId) {
    && Candidate(db, host, id)
    && Eligible(db, latest, id)
    && |Before(db, host, id)| < CANDIDATE_LIMIT
    && forall other | other in Before(db, host, id) :: !Eligible(db, latest, other)
  }

  function NextAttempt(op: Operation): nat {
    if op.phase == WaitingSource then op.attempt + 1 else op.attempt
  }

  function DeliveredOp(op: Operation, now: int): Operation {
    op.(phase := InFlight, attempt := NextAttempt(op), lastAttempt := Some(now))
  }

  function Deliver(db: Db, id: OpId, now: int): Db
    requires id in db.outbox
  {
    db.(outbox := db.outbox[id := DeliveredOp(db.outbox[id], now)])
  }

  function CommandFor(db: Db, id: OpId): Command
    requires id in db.outbox
  {
    var op := db.outbox[id];
    Command(op.thread, id, op.dormant, NextAttempt(op))
  }

  ghost function Select(db: Db, host: Host, latest: map<ThreadId, Observation>, now: int): (Db, Option<Command>) {
    if id :| Chosen(db, host, latest, id)
    then (Deliver(db, id, now), Some(CommandFor(db, id)))
    else (db, None)
  }

  ghost function Absorb(
    db: Db, host: Host, observations: seq<Observation>, acks: seq<Confirmation>): Result<Db, Error> {
    if !ValidExchange(host, observations, acks) then Failure(InvalidRequest)
    else
      match ConfirmAll(Exchange(db, map[]), host, Latest(observations), acks)
      case Failure(e) => Failure(e)
      case Success(x) =>
        match ObserveAll(x, host, observations)
        case Failure(e) => Failure(e)
        case Success(y) => Success(y.db)
  }

  ghost function Sync(db: Db, host: Host, observations: seq<Observation>, acks: seq<Confirmation>, now: int)
    : Result<(Db, Option<Command>), Error>
  {
    match Absorb(db, host, observations, acks)
    case Failure(e) => Failure(e)
    case Success(absorbed) => Success(Select(absorbed, host, Latest(observations), now))
  }

  // ------------------------------------------------------------------- runs

  datatype Step =
    | BindStep(agent: AgentId, host: Host, thread: ThreadId, op: OpId)
    | SetStep(choice: Choice)
    | SyncStep(source: Host, observations: seq<Observation>, acks: seq<Confirmation>, now: int)

  /** A failed transaction leaves the tables as they were. */
  ghost function Apply(db: Db, step: Step): Db {
    match step
    case BindStep(agent, host, thread, op) =>
      (match Bind(db, agent, host, thread, op) case Success(next) => next case Failure(_) => db)
    case SetStep(choice) =>
      (match Set(db, choice) case Success((next, _)) => next case Failure(_) => db)
    case SyncStep(host, observations, acks, now) =>
      (match Sync(db, host, observations, acks, now) case Success((next, _)) => next case Failure(_) => db)
  }

  ghost function Run(db: Db, steps: seq<Step>): Db {
    if steps == [] then db else Apply(Run(db, steps[..|steps| - 1]), steps[|steps| - 1])
  }
}
