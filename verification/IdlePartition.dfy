/** Which agents are free, silent, busy, blocked or undecided. Names are only
    compared and sorted, so they are numbers here. */
module IdlePartition {
  import opened Wrappers

  type Name = nat

  datatype AgentState = Busy | Connected | OtherState

  /** `bounded` is set for transports that report the end of every turn, `inFleet`
      for domains of the fleet. */
  datatype Agent = Agent(state: AgentState, mcp: bool, inFleet: bool, bounded: bool, lastSeen: int)

  datatype Turn = Open | Ended | OtherTurn

  datatype Intake = Accepted | NotSubmitted | DuringTurn | Unobservable | Pending | UnknownIntake

  datatype Bucket = Free | Silent | Occupied | Blocked | Unsubmitted | Delivered | Unseen | Undecided

  const BUCKETS: seq<Bucket> := [Free, Silent, Occupied, Blocked, Unsubmitted, Delivered, Unseen, Undecided]

  datatype View = View(
    agents: map<Name, Agent>, occupied: set<Name>, exclude: set<Name>, silentAfter: int,
    turns: map<Name, Turn>, intakes: map<Name, Intake>)

  function TurnOf(v: View, name: Name): Option<Turn> { if name in v.turns then Some(v.turns[name]) else None }

  // ------------------------------------------------------------------ what a list means

  /** What the client says of an open turn whose end its transport does not report;
      for a mission without any such record, that it cannot be seen. */
  function Watched(v: View, name: Name): Option<Intake>
    requires name in v.agents
  {
    if TurnOf(v, name) != Some(Open) || v.agents[name].bounded then None
    else if name in v.intakes then Some(v.intakes[name])
    else if name in v.occupied then Some(Unobservable)
    else None
  }

  /** Nothing speaks against calling the agent available. */
  predicate Available(v: View, name: Name)
    requires name in v.agents
  {
    var agent := v.agents[name];
    name !in v.exclude && !agent.mcp && agent.state.Connected? && agent.inFleet
  }

  /** Agents without a mission, unless the client reports otherwise. */
  predicate Idle(v: View, name: Name)
    requires name in v.agents
  {
    name !in v.occupied && (Watched(v, name).None? || Watched(v, name) == Some(Accepted))
  }

  /** Agents with a mission of which the client boundary says nothing. */
  predicate Engaged(v: View, name: Name)
    requires name in v.agents
  {
    name in v.occupied && Watched(v, name).None?
  }

  /** What standing in a list claims of an agent. */
  predicate Belongs(v: View, name: Name, b: Bucket)
    requires name in v.agents
  {
    var agent, turn, watched := v.agents[name], TurnOf(v, name), Watched(v, name);
    match b
    case Free => Idle(v, name) && Available(v, name) && agent.lastSeen <= v.silentAfter
    case Silent => Idle(v, name) && Available(v, name) && agent.lastSeen > v.silentAfter
    case Occupied =>
      || (name in v.occupied && watched == Some(Accepted))
      || (Engaged(v, name) && turn != Some(Ended) && (agent.state.Busy? || turn == Some(Open)))
    case Blocked => Engaged(v, name) && turn == Some(Ended) && !agent.state.Busy?
    case Unsubmitted => watched == Some(NotSubmitted)
    case Delivered => watched == Some(DuringTurn)
    case Unseen => watched == Some(Unobservable) || watched == Some(UnknownIntake)
    case Undecided =>
      || watched == Some(Pending)
      || (Engaged(v, name) && turn == Some(Ended) && agent.state.Busy?)
      || (Engaged(v, name) && turn != Some(Ended) && turn != Some(Open) && !agent.state.Busy?)
      || (Idle(v, name) && !Available(v, name))
  }

  lemma Claims(v: View, name: Name) returns (b: Bucket)
    requires name in v.agents
    ensures Belongs(v, name, b)
  {
    var agent, turn, watched := v.agents[name], TurnOf(v, name), Watched(v, name);
    if watched.Some? && !watched.value.Accepted? {
      b := match watched.value
           case NotSubmitted => Unsubmitted
           case DuringTurn => Delivered
           case Pending => Undecided
           case _ => Unseen;
    } else if name !in v.occupied {
      b := if !Available(v, name) then Undecided else if agent.lastSeen > v.silentAfter then Silent else Free;
    } else if watched.Some? {
      b := Occupied;
    } else if turn == Some(Ended) {
      b := if agent.state.Busy? then Undecided else Blocked;
    } else {
      b := if agent.state.Busy? || turn == Some(Open) then Occupied else Undecided;
    }
  }

  lemma ClaimsExclude(v: View, name: Name, a: Bucket, b: Bucket)
    requires name in v.agents && Belongs(v, name, a) && Belongs(v, name, b)
    ensures a == b
  {
  }

  /** The claims exclude each other and leave no agent out. */
  lemma OneClaim(v: View, name: Name)
    requires name in v.agents
    ensures exists b :: Belongs(v, name, b)
    ensures forall a, b | Belongs(v, name, a) && Belongs(v, name, b) :: a == b
  {
    var b := Claims(v, name);
    forall a, c | Belongs(v, name, a) && Belongs(v, name, c) ensures a == c { ClaimsExclude(v, name, a, c); }
  }

  /** An agent is called free only when nothing speaks against it. */
  lemma FreeMeans(v: View, name: Name)
    requires name in v.agents
    ensures var a := v.agents[name];
            Belongs(v, name, Free) <==>
              && name !in v.occupied && name !in v.exclude && !a.mcp && a.state.Connected? && a.inFleet
              && a.lastSeen <= v.silentAfter
              && (TurnOf(v, name) == Some(Open) && !a.bounded && name in v.intakes ==> v.intakes[name].Accepted?)
  {
  }

  // --------------------------------------------------------------------- the eight lists

  datatype Lists = Lists(
    free: seq<Name>, silent: seq<Name>, occupied: seq<Name>, blocked: seq<Name>,
    unsubmitted: seq<Name>, delivered: seq<Name>, unseen: seq<Name>, undecided: seq<Name>)

  const NOBODY: Lists := Lists([], [], [], [], [], [], [], [])

  function ListOf(l: Lists, b: Bucket): seq<Name> {
    match b
    case Free => l.free
    case Silent => l.silent
    case Occupied => l.occupied
    case Blocked => l.blocked
    case Unsubmitted => l.unsubmitted
    case Delivered => l.delivered
    case Unseen => l.unseen
    case Undecided => l.undecided
  }

  /** All eight lists, one after the other. */
  function All(l: Lists): seq<Name> {
    l.free + l.silent + l.occupied + l.blocked + l.unsubmitted + l.delivered + l.unseen + l.undecided
  }

  /** How often a name stands in a list. */
  function Tally(s: seq<Name>, name: Name): nat {
    if s == [] then 0 else Tally(s[..|s| - 1], name) + if s[|s| - 1] == name then 1 else 0
  }

  lemma TallyNext(s: seq<Name>, x: Name, name: Name)
    ensures Tally(s + [x], name) == Tally(s, name) + if x == name then 1 else 0
  {
    assert (s + [x])[..|s|] == s;
  }

  lemma {:induction false} TallyConcat(a: seq<Name>, b: seq<Name>, name: Name)
    ensures Tally(a + b, name) == Tally(a, name) + Tally(b, name)
    decreases |b|
  {
    if b == [] {
      assert a + b == a;
    } else {
      var n := |b| - 1;
      TallyConcat(a, b[..n], name);
      assert (a + b)[..|a + b| - 1] == a + b[..n];
    }
  }

  lemma {:induction false} TallyIn(s: seq<Name>, name: Name)
    ensures name in s <==> Tally(s, name) > 0
  {
    if s != [] {
      TallyIn(s[..|s| - 1], name);
      assert s == s[..|s| - 1] + [s[|s| - 1]];
    }
  }

  lemma {:induction false} TallyIsMultiplicity(s: seq<Name>, name: Name)
    ensures Tally(s, name) == multiset(s)[name]
  {
    if s != [] {
      TallyIsMultiplicity(s[..|s| - 1], name);
      assert s == s[..|s| - 1] + [s[|s| - 1]];
    }
  }

  /** How often a name stands in the eight lists. */
  function Count(l: Lists, name: Name): nat {
    Tally(l.free, name) + Tally(l.silent, name) + Tally(l.occupied, name) + Tally(l.blocked, name)
    + Tally(l.unsubmitted, name) + Tally(l.delivered, name) + Tally(l.unseen, name) + Tally(l.undecided, name)
  }

  lemma CountIsAll(l: Lists, name: Name)
    ensures Count(l, name) == Tally(All(l), name)
  {
    TallyConcat(l.free, l.silent, name);
    TallyConcat(l.free + l.silent, l.occupied, name);
    TallyConcat(l.free + l.silent + l.occupied, l.blocked, name);
    TallyConcat(l.free + l.silent + l.occupied + l.blocked, l.unsubmitted, name);
    TallyConcat(l.free + l.silent + l.occupied + l.blocked + l.unsubmitted, l.delivered, name);
    TallyConcat(l.free + l.silent + l.occupied + l.blocked + l.unsubmitted + l.delivered, l.unseen, name);
    TallyConcat(l.free + l.silent + l.occupied + l.blocked + l.unsubmitted + l.delivered + l.unseen, l.undecided, name);
  }

  /** The lists with `name` once more, at the end of list `b`. */
  function Put(l: Lists, b: Bucket, name: Name): Lists {
    match b
    case Free => l.(free := l.free + [name])
    case Silent => l.(silent := l.silent + [name])
    case Occupied => l.(occupied := l.occupied + [name])
    case Blocked => l.(blocked := l.blocked + [name])
    case Unsubmitted => l.(unsubmitted := l.unsubmitted + [name])
    case Delivered => l.(delivered := l.delivered + [name])
    case Unseen => l.(unseen := l.unseen + [name])
    case Undecided => l.(undecided := l.undecided + [name])
  }

  lemma PutCounts(l: Lists, b: Bucket, name: Name, other: Name)
    ensures Count(Put(l, b, name), other) == Count(l, other) + if other == name then 1 else 0
  {
    TallyNext(ListOf(l, b), name, other);
  }

  lemma PutLists(l: Lists, b: Bucket, name: Name, c: Bucket)
    ensures ListOf(Put(l, b, name), c) == ListOf(l, c) + if c == b then [name] else []
  {
  }

  /** One turn of the loop: the first branch that applies appends the name to its
      list and ends the turn; an accepted intake without a mission falls through. */
  method Place(v: View, name: Name, l: Lists) returns (out: Lists, ghost b: Bucket)
    requires name in v.agents
    ensures out == Put(l, b, name) && Belongs(v, name, b)
  {
    var agent := v.agents[name];
    var turn := TurnOf(v, name);
    if turn == Some(Open) && !agent.bounded {
      var intake := if name in v.intakes then Some(v.intakes[name]) else None;
      if intake.None? && name in v.occupied { intake := Some(Unobservable); }
      if intake.Some? {
        match intake.value {
          case Accepted =>
            if name in v.occupied { return l.(occupied := l.occupied + [name]), Occupied; }
          case NotSubmitted => return l.(unsubmitted := l.unsubmitted + [name]), Unsubmitted;
          case DuringTurn => return l.(delivered := l.delivered + [name]), Delivered;
          case Unobservable => return l.(unseen := l.unseen + [name]), Unseen;
          case Pending => return l.(undecided := l.undecided + [name]), Undecided;
          case UnknownIntake => return l.(unseen := l.unseen + [name]), Unseen;
        }
      }
    }
    if name in v.occupied {
      if turn == Some(Ended) {
        if agent.state.Busy? { return l.(undecided := l.undecided + [name]), Undecided; }
        return l.(blocked := l.blocked + [name]), Blocked;
      }
      if agent.state.Busy? { return l.(occupied := l.occupied + [name]), Occupied; }
      if turn == Some(Open) && agent.bounded { return l.(occupied := l.occupied + [name]), Occupied; }
      return l.(undecided := l.undecided + [name]), Undecided;
    }
    if name in v.exclude || agent.mcp || !agent.state.Connected? || !agent.inFleet {
      return l.(undecided := l.undecided + [name]), Undecided;
    }
    if agent.lastSeen > v.silentAfter { return l.(silent := l.silent + [name]), Silent; }
    return l.(free := l.free + [name]), Free;
  }

  ghost predicate Known(v: View, names: seq<Name>) { forall i | 0 <= i < |names| :: names[i] in v.agents }

  /** The lists hold these names, as often as they occur, each where it belongs. */
  ghost predicate Classified(v: View, names: seq<Name>, l: Lists)
    requires Known(v, names)
  {
    && (forall name :: Count(l, name) == Tally(names, name))
    && (forall b, name | name in ListOf(l, b) :: name in v.agents && Belongs(v, name, b))
  }

  lemma ClassifiedNext(v: View, names: seq<Name>, i: nat, l: Lists, b: Bucket)
    requires Known(v, names) && i < |names| && Classified(v, names[..i], l) && Belongs(v, names[i], b)
    ensures Classified(v, names[..i + 1], Put(l, b, names[i]))
  {
    var out := Put(l, b, names[i]);
    assert names[..i + 1] == names[..i] + [names[i]];
    forall name ensures Count(out, name) == Tally(names[..i + 1], name) {
      PutCounts(l, b, names[i], name);
      TallyNext(names[..i], names[i], name);
    }
    forall c, name | name in ListOf(out, c)
      ensures name in v.agents && Belongs(v, name, c)
    {
      PutLists(l, b, names[i], c);
    }
  }

  /** One pass over the sorted names. */
  method Classify(v: View, names: seq<Name>) returns (l: Lists)
    requires Known(v, names)
    ensures Classified(v, names, l)
  {
    l := NOBODY;
    ghost var b := Free;
    assert All(l) == [];
    for i := 0 to |names|
      invariant Classified(v, names[..i], l)
    {
      ghost var before := l;
      l, b := Place(v, names[i], l);
      ClassifiedNext(v, names, i, before, b);
    }
    assert names[..|names|] == names;
  }

  // ------------------------------------------------------------------------- partitions

  /** Every daemon name occurs once in all eight lists together, and nothing else does. */
  ghost predicate OnceEach(l: Lists, daemon: set<Name>) {
    forall name :: Count(l, name) == if name in daemon then 1 else 0
  }

  lemma ClassifiedBelongs(v: View, names: seq<Name>, l: Lists, name: Name, b: Bucket)
    requires Known(v, names) && Classified(v, names, l) && name in names
    ensures name in ListOf(l, b) <==> Belongs(v, name, b)
  {
    TallyIn(names, name);
    var c := Bucketed(l, name);
    assert Belongs(v, name, c);
    if Belongs(v, name, b) { ClaimsExclude(v, name, b, c); }
  }

  /** Every daemon name stands once in the eight lists, in the one it belongs to. */
  lemma ClassifiedOnce(v: View, names: seq<Name>, l: Lists)
    requires Known(v, names) && Classified(v, names, l) && Enumerates(names, v.agents.Keys)
    ensures OnceEach(l, v.agents.Keys)
    ensures |l.free| + |l.silent| + |l.occupied| + |l.blocked| + |l.unsubmitted| + |l.delivered| + |l.unseen|
            + |l.undecided|
            == |v.agents.Keys|
    ensures forall name, b | name in v.agents :: name in ListOf(l, b) <==> Belongs(v, name, b)
  {
    OnceEachSize(l, v.agents.Keys);
    forall name, b | name in v.agents ensures name in ListOf(l, b) <==> Belongs(v, name, b) {
      TallyIn(names, name);
      ClassifiedBelongs(v, names, l, name, b);
    }
  }

  /** These names are those of the set, each once. */
  ghost predicate Enumerates(names: seq<Name>, all: set<Name>) {
    forall name :: Tally(names, name) == if name in all then 1 else 0
  }

  lemma Bucketed(l: Lists, name: Name) returns (b: Bucket)
    requires Count(l, name) > 0
    ensures name in ListOf(l, b)
  {
    TallyIn(l.free, name);
    TallyIn(l.silent, name);
    TallyIn(l.occupied, name);
    TallyIn(l.blocked, name);
    TallyIn(l.unsubmitted, name);
    TallyIn(l.delivered, name);
    TallyIn(l.unseen, name);
    TallyIn(l.undecided, name);
    b := if name in l.free then Free else if name in l.silent then Silent else if name in l.occupied then Occupied
         else if name in l.blocked then Blocked else if name in l.unsubmitted then Unsubmitted
         else if name in l.delivered then Delivered else if name in l.unseen then Unseen else Undecided;
  }

  lemma OnceEachSize(l: Lists, daemon: set<Name>)
    requires OnceEach(l, daemon)
    ensures |All(l)| == |daemon|
  {
    forall name ensures multiset(All(l))[name] == multiset(daemon)[name] {
      CountIsAll(l, name);
      TallyIsMultiplicity(All(l), name);
    }
    assert multiset(All(l)) == multiset(daemon);
    assert |multiset(All(l))| == |All(l)| && |multiset(daemon)| == |daemon|;
  }

  function Names(l: Lists, b: Bucket): set<Name> { set i | 0 <= i < |ListOf(l, b)| :: ListOf(l, b)[i] }

  /** As sets, the lists do not overlap and cover the daemon names. */
  ghost predicate Partitions(l: Lists, daemon: set<Name>) {
    && (forall b, name | name in Names(l, b) :: name in daemon)
    && (forall name | name in daemon :: exists b :: name in Names(l, b))
    && (forall a, b, name | name in Names(l, a) && name in Names(l, b) :: a == b)
  }

  lemma TwiceCounted(l: Lists, a: Bucket, b: Bucket, name: Name)
    requires a != b && name in ListOf(l, a) && name in ListOf(l, b)
    ensures Count(l, name) >= 2
  {
    TallyIn(ListOf(l, a), name);
    TallyIn(ListOf(l, b), name);
  }

  lemma OnceCounted(l: Lists, b: Bucket, name: Name)
    requires name in ListOf(l, b)
    ensures Count(l, name) >= 1
  {
    TallyIn(ListOf(l, b), name);
  }

  lemma OncePartitions(l: Lists, daemon: set<Name>)
    requires OnceEach(l, daemon)
    ensures Partitions(l, daemon)
  {
    forall b, name | name in Names(l, b) ensures name in daemon { OnceCounted(l, b, name); }
    forall name | name in daemon ensures exists b :: name in Names(l, b) {
      var b := Bucketed(l, name);
      assert name in Names(l, b);
    }
    forall a, b, name | name in Names(l, a) && name in Names(l, b) ensures a == b {
      if a != b { TwiceCounted(l, a, b, name); }
    }
  }

  lemma SameSize(a: multiset<Name>, b: multiset<Name>)
    requires b <= a && |a| == |b|
    ensures a == b
  {
    assert a == b + (a - b);
    assert |a| == |b| + |a - b|;
  }

  /** What a partition of sets leaves open is a name listed twice in one list; the
      number of entries settles it. */
  lemma PartitionOnce(l: Lists, daemon: set<Name>)
    ensures OnceEach(l, daemon) <==> Partitions(l, daemon) && |All(l)| == |daemon|
  {
    if OnceEach(l, daemon) {
      OncePartitions(l, daemon);
      OnceEachSize(l, daemon);
    } else if Partitions(l, daemon) && |All(l)| == |daemon| {
      forall name ensures multiset(daemon)[name] <= multiset(All(l))[name] == Count(l, name) {
        CountIsAll(l, name);
        TallyIsMultiplicity(All(l), name);
        if name in daemon {
          var b :| name in Names(l, b);
          OnceCounted(l, b, name);
        }
      }
      assert |multiset(All(l))| == |All(l)| && |multiset(daemon)| == |daemon|;
      SameSize(multiset(All(l)), multiset(daemon));
      assert false;
    }
  }

  // ----------------------------------------------------------------------- the oracle

  /** Buckets one after the other: no overlap, nothing missing, nothing extra, no dead name alive. */
  method Oracle(l: Lists, daemon: set<Name>, dead: set<Name>) returns (ok: bool)
    ensures ok <==> Partitions(l, daemon) && dead * daemon == {}
  {
    var covered: set<Name> := {};
    for k := 0 to |BUCKETS|
      invariant forall name :: name in covered <==> exists i :: 0 <= i < k && name in Names(l, BUCKETS[i])
      invariant forall i, j, name |
                  0 <= i < k && 0 <= j < k && name in Names(l, BUCKETS[i]) && name in Names(l, BUCKETS[j]) :: i == j
    {
      var names := Names(l, BUCKETS[k]);
      if covered * names != {} {
        Overlap(l, covered, k, daemon);
        return false;
      }
      forall name | name in names ensures name !in covered {
        assert name !in covered * names;
      }
      covered := covered + names;
    }
    Covered(l, covered, daemon);
    assert covered == daemon <==> daemon <= covered && covered <= daemon;
    ok := daemon <= covered && covered <= daemon && dead * daemon == {};
  }

  lemma Overlap(l: Lists, covered: set<Name>, k: nat, daemon: set<Name>)
    requires k < |BUCKETS| && covered * Names(l, BUCKETS[k]) != {}
    requires forall name :: name in covered <==> exists i :: 0 <= i < k && name in Names(l, BUCKETS[i])
    ensures !Partitions(l, daemon)
  {
  }

  lemma Listed(b: Bucket)
    ensures exists i :: 0 <= i < |BUCKETS| && BUCKETS[i] == b
  {
    match b
    case Free => assert BUCKETS[0] == b;
    case Silent => assert BUCKETS[1] == b;
    case Occupied => assert BUCKETS[2] == b;
    case Blocked => assert BUCKETS[3] == b;
    case Unsubmitted => assert BUCKETS[4] == b;
    case Delivered => assert BUCKETS[5] == b;
    case Unseen => assert BUCKETS[6] == b;
    case Undecided => assert BUCKETS[7] == b;
  }

  lemma Covered(l: Lists, covered: set<Name>, daemon: set<Name>)
    requires forall name :: name in covered <==> exists i :: 0 <= i < |BUCKETS| && name in Names(l, BUCKETS[i])
    requires forall i, j, name |
               && 0 <= i < |BUCKETS| && 0 <= j < |BUCKETS|
               && name in Names(l, BUCKETS[i]) && name in Names(l, BUCKETS[j]) :: i == j
    ensures Partitions(l, daemon) <==> covered == daemon
  {
    forall b, name | name in Names(l, b) ensures name in covered {
      Listed(b);
      var i :| 0 <= i < |BUCKETS| && BUCKETS[i] == b;
      assert name in Names(l, BUCKETS[i]);
    }
    forall a, b, name | name in Names(l, a) && name in Names(l, b) ensures a == b {
      Listed(a);
      Listed(b);
      var i :| 0 <= i < |BUCKETS| && BUCKETS[i] == a;
      var j :| 0 <= j < |BUCKETS| && BUCKETS[j] == b;
      assert name in Names(l, BUCKETS[i]) && name in Names(l, BUCKETS[j]);
    }
    if Partitions(l, daemon) {
      forall name | name in daemon ensures name in covered {
        var b :| name in Names(l, b);
      }
      forall name | name in covered ensures name in daemon {
        var i :| 0 <= i < |BUCKETS| && name in Names(l, BUCKETS[i]);
      }
    }
  }

  // ------------------------------------------------------------------ missions unknown

  function Insert(s: seq<Name>, x: Name): seq<Name> {
    if s == [] || s[|s| - 1] <= x then s + [x] else Insert(s[..|s| - 1], x) + [s[|s| - 1]]
  }

  function Sorted(s: seq<Name>): seq<Name> {
    if s == [] then [] else Insert(Sorted(s[..|s| - 1]), s[|s| - 1])
  }

  lemma {:induction false} InsertTally(s: seq<Name>, x: Name, name: Name)
    ensures Tally(Insert(s, x), name) == Tally(s, name) + if x == name then 1 else 0
  {
    if s == [] || s[|s| - 1] <= x {
      TallyNext(s, x, name);
    } else {
      InsertTally(s[..|s| - 1], x, name);
      TallyNext(Insert(s[..|s| - 1], x), s[|s| - 1], name);
    }
  }

  lemma {:induction false} SortedTally(s: seq<Name>, name: Name)
    ensures Tally(Sorted(s), name) == Tally(s, name)
  {
    if s != [] {
      SortedTally(s[..|s| - 1], name);
      InsertTally(Sorted(s[..|s| - 1]), s[|s| - 1], name);
    }
  }

  /** When missions cannot be seen, nobody is called free or silent. */
  function Close(l: Lists, unavailable: bool): Lists {
    if !unavailable then l
    else l.(free := [], silent := [], undecided := Sorted(l.undecided + (l.free + l.silent)))
  }

  /** Closing moves the free and silent names to the undecided, loses none and doubles none. */
  lemma CloseKeeps(l: Lists, unavailable: bool, name: Name)
    ensures Count(Close(l, unavailable), name) == Count(l, name)
    ensures unavailable ==> Close(l, unavailable).free == [] == Close(l, unavailable).silent
    ensures unavailable && (name in l.free || name in l.silent) ==> name in Close(l, unavailable).undecided
  {
    var moved: seq<Name> := l.undecided + (l.free + l.silent);
    SortedTally(moved, name);
    TallyConcat(l.free, l.silent, name);
    TallyConcat(l.undecided, l.free + l.silent, name);
    TallyIn(moved, name);
    TallyIn(Sorted(moved), name);
  }

  // ---------------------------------------------------------------------- the directory

  /** An entry of the directory; `None` for one that has no usable name. */
  datatype Entry = Entry(name: Option<Name>, agent: Agent)

  predicate Complete(raw: seq<Entry>) {
    && (forall i | 0 <= i < |raw| :: raw[i].name.Some?)
    && (forall i, j | 0 <= i < j < |raw| :: raw[i].name != raw[j].name)
  }

  /** The first n entries are usable and these are their agents. */
  ghost predicate Loaded(raw: seq<Entry>, n: nat, agents: map<Name, Agent>)
    requires n <= |raw|
  {
    && (forall i | 0 <= i < n ::
      raw[i].name.Some? && raw[i].name.value in agents && agents[raw[i].name.value] == raw[i].agent)
    && (forall name | name in agents :: exists i :: 0 <= i < n && raw[i].name == Some(name))
    && (forall i, j | 0 <= i < j < n :: raw[i].name != raw[j].name)
  }

  lemma LoadNext(raw: seq<Entry>, n: nat, agents: map<Name, Agent>)
    requires n < |raw| && Loaded(raw, n, agents)
    ensures var name := raw[n].name;
            if name.Some? && name.value !in agents then Loaded(raw, n + 1, agents[name.value := raw[n].agent])
            else !Complete(raw)
  {
  }

  /** One unusable or repeated entry closes the directory. */
  method Validate(raw: seq<Entry>) returns (r: Option<map<Name, Agent>>)
    ensures r.Some? <==> Complete(raw)
    ensures r.Some? ==> |r.value| == |raw| && Loaded(raw, |raw|, r.value)
  {
    var agents: map<Name, Agent> := map[];
    var valid: nat := 0;
    for i := 0 to |raw|
      invariant valid <= i && |agents| == valid
      invariant if valid == i then Loaded(raw, i, agents) else !Complete(raw)
    {
      if valid == i { LoadNext(raw, i, agents); }
      var name := raw[i].name;
      if name.Some? && name.value !in agents {
        agents, valid := agents[name.value := raw[i].agent], valid + 1;
      }
    }
    return if valid == |raw| then Some(agents) else None;
  }

  /** The names of the directory in order. */
  method SortedNames(agents: map<Name, Agent>) returns (names: seq<Name>)
    ensures Enumerates(names, agents.Keys)
  {
    names := [];
    var todo := agents.Keys;
    ghost var done: set<Name> := {};
    while todo != {}
      invariant todo !! done && todo + done == agents.Keys && Enumerates(names, done)
      decreases todo
    {
      var name :| name in todo;
      forall other ensures Tally(Insert(names, name), other) == Tally(names, other) + if name == other then 1 else 0 {
        InsertTally(names, name, other);
      }
      names := Insert(names, name);
      todo, done := todo - {name}, done + {name};
    }
  }

  lemma NamesKnown(v: View, names: seq<Name>)
    requires Enumerates(names, v.agents.Keys)
    ensures Known(v, names)
  {
    forall i | 0 <= i < |names| ensures names[i] in v.agents {
      TallyIn(names, names[i]);
    }
  }

  /** Whatever was received and observed: an incomplete directory is refused, and
      from a complete one every name stands in one list once, closed or not, so
      that the oracle accepts. */
  method Report(raw: seq<Entry>, v: View, unavailable: bool) returns (r: Option<Lists>, ok: bool)
    ensures r.Some? <==> Complete(raw)
    ensures r.Some? ==> ok && forall name :: Count(r.value, name) == if Reports(raw, name) then 1 else 0
    ensures r.Some? && unavailable ==> r.value.free == [] == r.value.silent
  {
    var agents := Validate(raw);
    if agents.None? { return None, false; }
    var view := v.(agents := agents.value);
    var names := SortedNames(agents.value);
    NamesKnown(view, names);
    var open := Classify(view, names);
    ClassifiedOnce(view, names, open);
    var l := Close(open, unavailable);
    forall name ensures Count(l, name) == if name in agents.value then 1 else 0 { CloseKeeps(open, unavailable, name); }
    OncePartitions(l, agents.value.Keys);
    ok := Oracle(l, agents.value.Keys, v.occupied - agents.value.Keys);
    forall name ensures name in agents.value <==> Reports(raw, name) { LoadedReports(raw, agents.value, name); }
    CloseKeeps(open, unavailable, 0);
    return Some(l), ok;
  }

  ghost predicate Reports(raw: seq<Entry>, name: Name) { exists i :: 0 <= i < |raw| && raw[i].name == Some(name) }

  lemma LoadedReports(raw: seq<Entry>, agents: map<Name, Agent>, name: Name)
    requires Loaded(raw, |raw|, agents)
    ensures name in agents <==> Reports(raw, name)
  {
  }
}
