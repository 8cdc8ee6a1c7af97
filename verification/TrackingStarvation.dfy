/** When an uncertain order starves: a host that repeats the same report never has
    it repeated exactly when the candidates parked before it fill the window, and
    such a crowd gathers by ordinary choices from empty tables. */
module TrackingStarvation {
  import opened Wrappers
  import opened TrackingModel
  import opened TrackingInvariant
  import opened TrackingTheorems
  import opened TrackingFairness

  // -------------------------------------------------------- a host that repeats itself

  /** Exchanges without receipts that all carry the same report. */
  function Steady(host: Host, observations: seq<Observation>, times: seq<int>): seq<Step> {
    seq(|times|, i requires 0 <= i < |times| => SyncStep(host, observations, [], times[i]))
  }

  ghost predicate After(since: int, times: seq<int>) {
    forall i | 0 <= i < |times| :: since < times[i]
  }

  /** No step of the run repeats `x`. */
  ghost predicate Ignores(db: Db, steps: seq<Step>, x: OpId) {
    steps == [] ||
      var n := |steps| - 1;
      Ignores(db, steps[..n], x) && !Repeats(Run(db, steps[..n]), steps[n], x)
  }

  /** Two candidates belong to different agents. */
  lemma OneCandidateEach(db: Db, host: Host, c: OpId, d: OpId)
    requires Inv(db) && Candidate(db, host, c) && Candidate(db, host, d) && db.outbox[c].agent == db.outbox[d].agent
    ensures c == d
  {
    assert OpPending(db.rows, c, db.outbox[c]) && OpPending(db.rows, d, db.outbox[d]);
    if c != d {
      CandidateAlone(db, host, c, d);
      CandidateAlone(db, host, d, c);
    }
  }

  lemma StaysUnblocked(db: Db, host: Host, c: OpId, now: int, p: OpId)
    requires Inv(db) && Candidate(db, host, c) && p in db.outbox && p != c
    ensures Candidate(Deliver(db, c, now), host, p) <==> Candidate(db, host, p)
  {
    var next := Deliver(db, c, now);
    if Candidate(db, host, p) {
      if db.outbox[c].agent == db.outbox[p].agent { OneCandidateEach(db, host, c, p); }
      assert !Blocked(next, p);
    }
    if Blocked(db, p) {
      var older :| older in db.outbox && db.outbox[older].agent == db.outbox[p].agent
                   && db.outbox[older].revision < db.outbox[p].revision && db.outbox[older].phase == InFlight;
      assert next.outbox[older].phase == InFlight;
      assert Blocked(next, p);
    }
  }

  /** Delivering another order leaves those parked before `x` where they are. */
  lemma DeliverKeepsParked(db: Db, host: Host, latest: map<ThreadId, Observation>, c: OpId, now: int, x: OpId)
    requires Inv(db) && Chosen(db, host, latest, c) && Uncertain(db, host, x) && c != x
    ensures Parked(Deliver(db, c, now), host, latest, x) == Parked(db, host, latest, x)
  {
    forall p | p in db.outbox && p != c
      ensures p in Parked(Deliver(db, c, now), host, latest, x) <==> p in Parked(db, host, latest, x)
    {
      StaysUnblocked(db, host, c, now, p);
    }
  }

  /** The report is known, and `x` is uncertain behind those parked. */
  ghost predicate Poised(db: Db, host: Host, observations: seq<Observation>, x: OpId) {
    Inv(db) && Uncertain(db, host, x) && Absorb(db, host, observations, []) == Success(db)
  }

  lemma PoisedStep(db: Db, host: Host, observations: seq<Observation>, now: int, x: OpId)
    requires Poised(db, host, observations, x) && !Repeats(db, SyncStep(host, observations, [], now), x)
    ensures var next := Apply(db, SyncStep(host, observations, [], now));
            && Poised(next, host, observations, x) && next.outbox[x] == db.outbox[x]
            && |next.outbox| == |db.outbox|
            && Parked(next, host, Latest(observations), x) == Parked(db, host, Latest(observations), x)
  {
    var latest := Latest(observations);
    var next := Apply(db, SyncStep(host, observations, [], now));
    SyncKeeps(db, host, observations, [], now);
    RepeatedReportChangesNothing(db, host, observations, next);
    if next != db {
      var c := Select(db, host, latest, now).1.value.operation;
      assert next == Deliver(db, c, now) && Chosen(db, host, latest, c);
      DeliverKeepsParked(db, host, latest, c, now, x);
      assert next.outbox.Keys == db.outbox.Keys;
      assert |next.outbox.Keys| == |next.outbox| && |db.outbox.Keys| == |db.outbox|;
    }
  }

  lemma SteadyPrefix(host: Host, observations: seq<Observation>, times: seq<int>)
    requires times != []
    ensures var n := |times| - 1;
            && Steady(host, observations, times)[..n] == Steady(host, observations, times[..n])
            && Steady(host, observations, times)[n] == SyncStep(host, observations, [], times[n])
  {
  }

  lemma {:induction false} StaysPoised(db: Db, host: Host, observations: seq<Observation>, times: seq<int>, x: OpId)
    requires Poised(db, host, observations, x) && Ignores(db, Steady(host, observations, times), x)
    ensures var later := Run(db, Steady(host, observations, times));
            && Poised(later, host, observations, x) && later.outbox[x] == db.outbox[x]
            && |later.outbox| == |db.outbox|
            && Parked(later, host, Latest(observations), x) == Parked(db, host, Latest(observations), x)
  {
    if times != [] {
      var n := |times| - 1;
      SteadyPrefix(host, observations, times);
      StaysPoised(db, host, observations, times[..n], x);
      PoisedStep(Run(db, Steady(host, observations, times[..n])), host, observations, times[n], x);
    }
  }

  lemma {:induction false} FullWindowIgnores(
    db: Db, host: Host, observations: seq<Observation>, times: seq<int>, x: OpId)
    requires Poised(db, host, observations, x) && |Parked(db, host, Latest(observations), x)| >= CANDIDATE_LIMIT
    ensures Ignores(db, Steady(host, observations, times), x)
  {
    if times != [] {
      var n := |times| - 1;
      SteadyPrefix(host, observations, times);
      FullWindowIgnores(db, host, observations, times[..n], x);
      StaysPoised(db, host, observations, times[..n], x);
      NoRoomNoRepeat(Run(db, Steady(host, observations, times[..n])), host, Latest(observations), times[n], x);
    }
  }

  lemma PoisedHasRoom(db: Db, host: Host, observations: seq<Observation>, now: int, x: OpId)
    requires Poised(db, host, observations, x) && |Parked(db, host, Latest(observations), x)| < CANDIDATE_LIMIT
    ensures HasRoom(db, SyncStep(host, observations, [], now), host, x)
  {
  }

  lemma {:induction false} SteadyBypasses(db: Db, host: Host, observations: seq<Observation>, times: seq<int>, x: OpId)
    requires Poised(db, host, observations, x) && Ignores(db, Steady(host, observations, times), x)
    requires |Parked(db, host, Latest(observations), x)| < CANDIDATE_LIMIT
    requires After(db.outbox[x].lastAttempt.value, times)
    ensures Bypasses(db, Steady(host, observations, times), host, x, db.outbox[x].lastAttempt.value)
    ensures RoomCount(db, Steady(host, observations, times), host, x) == |times|
  {
    StaysPoised(db, host, observations, times, x);
    if times != [] {
      var n := |times| - 1;
      SteadyPrefix(host, observations, times);
      SteadyBypasses(db, host, observations, times[..n], x);
      StaysPoised(db, host, observations, times[..n], x);
      PoisedHasRoom(Run(db, Steady(host, observations, times[..n])), host, observations, times[n], x);
    }
  }

  /** A host that goes on sending a report already taken in, without receipts, never
      has an uncertain order repeated exactly when at least as many candidates as
      the window holds are parked before it. */
  lemma StarvedExactly(db: Db, host: Host, observations: seq<Observation>, x: OpId)
    requires Poised(db, host, observations, x)
    ensures (forall times | After(db.outbox[x].lastAttempt.value, times) ::
               Ignores(db, Steady(host, observations, times), x))
            <==> |Parked(db, host, Latest(observations), x)| >= CANDIDATE_LIMIT
  {
    var since := db.outbox[x].lastAttempt.value;
    if |Parked(db, host, Latest(observations), x)| >= CANDIDATE_LIMIT {
      forall times ensures Ignores(db, Steady(host, observations, times), x) {
        FullWindowIgnores(db, host, observations, times, x);
      }
    } else {
      var times := seq(|Waiting(db, host)|, _ => since + 1);
      assert After(since, times);
      if Ignores(db, Steady(host, observations, times), x) {
        SteadyBypasses(db, host, observations, times, x);
        BoundedBypass(db, Steady(host, observations, times), host, x);
        StaysPoised(db, host, observations, times, x);
      }
    }
  }

  // ------------------------------------------------------------ a crowd that starves

  const HOST := Text(0, 1)

  function Thread(i: nat): ThreadId { Text(i, 1) }

  /** Agent 0 is to wake, all others are to sleep. */
  function Wish(i: nat): Choice {
    Choice(0, i, true, Text(0, 0), i, HOST, i > 0, None, None)
  }

  function Arrive(i: nat): seq<Step> { [SetStep(Wish(i)), BindStep(i, HOST, Thread(i), i)] }

  /** Agent 0 arrives and its order is sent out; then `n` others arrive. */
  function Gather(n: nat): seq<Step> {
    if n == 0 then Arrive(0) + [SyncStep(HOST, [], [], 0)] else Gather(n - 1) + Arrive(n)
  }

  function CrowdRow(i: nat): Row {
    Row(i > 0, true, i + 1, HOST, Some(Thread(i)), None, None, Some(i), 0, 0)
  }

  function FirstOrder(i: nat): Operation {
    Operation(i, i + 1, Thread(i), HOST, i > 0, Queued, 0, None, None, None, map[])
  }

  function CrowdOrder(i: nat): Operation {
    if i == 0 then DeliveredOp(FirstOrder(0), 0) else FirstOrder(i)
  }

  ghost predicate Crowd(db: Db, n: nat, order: nat -> Operation) {
    && (forall i: nat :: i in db.rows <==> i < n)
    && (forall i: nat :: i in db.outbox <==> i < n)
    && (forall i: nat | i < n :: db.rows[i] == CrowdRow(i) && db.outbox[i] == order(i))
    && (forall key | key in db.requests :: key.1 < n)
    && |db.events| == n
  }

  /** An agent that has chosen and is not linked yet. */
  function UnlinkedRow(i: nat): Row { CrowdRow(i).(thread := None, pendingId := None) }

  /** A crowd of `i` in which agent `i` is unlinked. */
  ghost predicate Joining(db: Db, i: nat, order: nat -> Operation) {
    && i in db.rows && db.rows[i] == UnlinkedRow(i)
    && (forall key | key in db.requests :: key.1 <= i)
    && |db.events| == i + 1
    && (forall j: nat :: j in db.rows <==> j <= i)
    && (forall j: nat :: j in db.outbox <==> j < i)
    && (forall j: nat | j < i :: db.rows[j] == CrowdRow(j) && db.outbox[j] == order(j))
  }

  ghost predicate OwnOrders(order: nat -> Operation) { forall i: nat :: order(i).agent == i }

  lemma WishDecides(db: Db, i: nat, order: nat -> Operation)
    requires Crowd(db, i, order) && OwnOrders(order)
    ensures Decide(db, Wish(i)).Success?
    ensures var next := Decide(db, Wish(i)).value;
            && next.rows == db.rows[i := UnlinkedRow(i)] && next.outbox == db.outbox && next.requests == db.requests
            && |next.events| == i + 1
  {
    var recorded := RecordChange(WithRow(db, i, HOST), i, Wish(i).dormant, true);
    assert recorded.rows[i] == UnlinkedRow(i);
    assert Supersede(db.outbox, i) == db.outbox;
    assert Enqueued(recorded, i, i).rows == db.rows[i := recorded.rows[i]];
  }

  lemma WishAnswers(db: Db, c: Choice)
    requires c.requestIsUuid && (c.actor, c.request) !in db.requests && c.expected.None?
    requires Decide(db, c).Success? && c.agent in Decide(db, c).value.rows
    ensures var next := Apply(db, SetStep(c));
            var decided := Decide(db, c).value;
            && next.rows == decided.rows && next.outbox == decided.outbox && next.events == decided.events
            && forall key | key in next.requests :: key in decided.requests || key.1 == c.request
  {
  }

  /** A choice made before the agent is linked is journalled only. */
  lemma WishStep(db: Db, i: nat, order: nat -> Operation) returns (next: Db)
    requires Crowd(db, i, order) && OwnOrders(order)
    ensures next == Apply(db, SetStep(Wish(i))) && Joining(next, i, order)
  {
    WishDecides(db, i, order);
    WishAnswers(db, Wish(i));
    next := Apply(db, SetStep(Wish(i)));
  }

  /** Linking the agent queues the order. */
  lemma LinkStep(db: Db, i: nat, order: nat -> Operation) returns (next: Db)
    requires Joining(db, i, order) && OwnOrders(order) && order(i) == FirstOrder(i)
    ensures next == Apply(db, BindStep(i, HOST, Thread(i), i)) && Crowd(next, i + 1, order)
  {
    next := LinkQueues(db, i);
  }

  lemma LinkQueues(db: Db, i: nat) returns (next: Db)
    requires i in db.rows && db.rows[i] == UnlinkedRow(i)
    requires forall j: nat | j in db.rows && j != i :: db.rows[j] == CrowdRow(j)
    requires i !in db.outbox && forall id | id in db.outbox :: db.outbox[id].agent != i
    ensures next == Apply(db, BindStep(i, HOST, Thread(i), i))
    ensures next == db.(rows := db.rows[i := CrowdRow(i)], outbox := db.outbox[i := FirstOrder(i)])
  {
    var bound := BindRow(db, i, HOST, Thread(i)).value;
    assert !ThreadTaken(db, i, Thread(i));
    assert bound == db.(rows := db.rows[i := CrowdRow(i).(pendingId := None)]);
    assert NeedsSync(bound, i);
    assert Supersede(db.outbox, i) == db.outbox;
    assert Enqueued(bound, i, i).rows == db.rows[i := CrowdRow(i)];
    next := Enqueued(bound, i, i);
  }

  lemma ArriveStep(db: Db, i: nat, order: nat -> Operation) returns (next: Db)
    requires Crowd(db, i, order) && OwnOrders(order) && order(i) == FirstOrder(i)
    ensures next == Apply(Apply(db, Arrive(i)[0]), Arrive(i)[1]) && Crowd(next, i + 1, order)
  {
    var mid := WishStep(db, i, order);
    next := LinkStep(mid, i, order);
  }

  lemma LastStep(db: Db, steps: seq<Step>, step: Step)
    ensures Run(db, steps + [step]) == Apply(Run(db, steps), step)
  {
    assert (steps + [step])[..|steps|] == steps;
  }

  lemma LastTwo(db: Db, steps: seq<Step>, two: seq<Step>, after: Db)
    requires |two| == 2 && after == Apply(Apply(Run(db, steps), two[0]), two[1])
    ensures Run(db, steps + two) == after
  {
    LastStep(db, steps, two[0]);
    LastStep(db, steps + [two[0]], two[1]);
    assert steps + two == steps + [two[0]] + [two[1]];
  }

  lemma ArriveRun(db: Db, steps: seq<Step>, i: nat, order: nat -> Operation)
    requires Crowd(Run(db, steps), i, order) && OwnOrders(order) && order(i) == FirstOrder(i)
    ensures Crowd(Run(db, steps + Arrive(i)), i + 1, order)
  {
    var next := ArriveStep(Run(db, steps), i, order);
    LastTwo(db, steps, Arrive(i), next);
  }

  lemma FirstIsChosen(db: Db)
    requires Crowd(db, 1, FirstOrder)
    ensures Chosen(db, HOST, map[], 0) && forall c | Chosen(db, HOST, map[], c) :: c == 0
  {
    assert Before(db, HOST, 0) == {};
  }

  lemma SelectOnly(db: Db, host: Host, latest: map<ThreadId, Observation>, now: int, id: OpId)
    requires Chosen(db, host, latest, id) && forall c | Chosen(db, host, latest, c) :: c == id
    ensures Select(db, host, latest, now).0 == Deliver(db, id, now)
  {
  }

  lemma EmptyReport(db: Db, host: Host, now: int)
    requires 0 < host.bytes <= 256
    ensures Absorb(db, host, [], []) == Success(db)
    ensures Apply(db, SyncStep(host, [], [], now)) == Select(db, host, map[], now).0
  {
  }

  /** The first order is sent out. */
  lemma SendStep(db: Db)
    requires Crowd(db, 1, FirstOrder)
    ensures Crowd(Apply(db, SyncStep(HOST, [], [], 0)), 1, CrowdOrder)
  {
    FirstIsChosen(db);
    SelectOnly(db, HOST, map[], 0, 0);
    EmptyReport(db, HOST, 0);
    assert Deliver(db, 0, 0).outbox[0] == CrowdOrder(0);
  }

  lemma FirstSent()
    ensures Crowd(Run(EMPTY_DB, Gather(0)), 1, CrowdOrder)
  {
    assert Crowd(Run(EMPTY_DB, []), 0, FirstOrder);
    ArriveRun(EMPTY_DB, [], 0, FirstOrder);
    assert [] + Arrive(0) == Arrive(0);
    LastStep(EMPTY_DB, Arrive(0), SyncStep(HOST, [], [], 0));
    SendStep(Run(EMPTY_DB, Arrive(0)));
  }

  lemma NextArrives(steps: seq<Step>, n: nat, next: seq<Step>)
    requires n > 0 && Crowd(Run(EMPTY_DB, steps), n, CrowdOrder) && next == steps + Arrive(n)
    ensures Crowd(Run(EMPTY_DB, next), n + 1, CrowdOrder)
  {
    ArriveRun(EMPTY_DB, steps, n, CrowdOrder);
  }

  lemma {:induction false} GatherRun(n: nat)
    ensures Crowd(Run(EMPTY_DB, Gather(n)), n + 1, CrowdOrder)
  {
    if n == 0 {
      FirstSent();
    } else {
      GatherRun(n - 1);
      NextArrives(Gather(n - 1), n, Gather(n));
    }
  }

  ghost function UpTo(n: nat): (r: set<nat>)
    ensures |r| == n
    ensures forall i: nat :: i in r <==> 1 <= i <= n
  {
    if n == 0 then {} else UpTo(n - 1) + {n}
  }

  lemma CrowdIsParked(db: Db, n: nat)
    requires Crowd(db, n + 1, CrowdOrder)
    ensures 0 in db.outbox && |Parked(db, HOST, map[], 0)| >= n
  {
    forall i | i in UpTo(n) ensures i in Parked(db, HOST, map[], 0) {
      assert !Blocked(db, i);
    }
    SubsetSize(UpTo(n), Parked(db, HOST, map[], 0));
  }

  /** From empty tables, 10001 agents make a choice and are linked, the first order
      is sent out, and from then on it is never repeated, however often the host
      asks. */
  lemma StarvationReached(times: seq<int>)
    ensures var db := Run(EMPTY_DB, Gather(CANDIDATE_LIMIT));
            Uncertain(db, HOST, 0) && Ignores(db, Steady(HOST, [], times), 0)
  {
    var db := Run(EMPTY_DB, Gather(CANDIDATE_LIMIT));
    GatherRun(CANDIDATE_LIMIT);
    Reachable(Gather(CANDIDATE_LIMIT));
    CrowdIsParked(db, CANDIDATE_LIMIT);
    EmptyReport(db, HOST, 0);
    FullWindowIgnores(db, HOST, [], times, 0);
  }
}
