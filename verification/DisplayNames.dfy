/** The table of profiles: creating, renaming and updating them. */
module DisplayNames {
  import opened Wrappers

  type Id = nat

  datatype Profile = Profile(display: string, normalized: string, revision: nat)

  type Table = map<Id, Profile>

  /** How names are checked, cleaned, compared and found. */
  datatype Naming = Naming(
    hasControl: string -> bool,
    clean: string -> Option<string>,
    normalize: string -> Option<string>,
    available: (set<string>, string) -> Option<string>)

  /** A cleaned name can be compared, and a name that was found is free. */
  ghost predicate Sound(naming: Naming) {
    && (forall raw :: naming.clean(raw).Some? ==> naming.normalize(naming.clean(raw).value).Some?)
    && (forall occupied, raw :: naming.available(occupied, raw).Some? ==>
          && naming.normalize(naming.available(occupied, raw).value).Some?
          && naming.normalize(naming.available(occupied, raw).value).value !in occupied)
  }

  datatype Error = Invalid | Exhausted | NotFound | DisplayNameConflict | RevisionConflict

  datatype Step = Step(table: Table, result: Result<(), Error>)

  function Occupied(t: Table): set<string> { set id | id in t :: t[id].normalized }

  predicate Holds(t: Table, id: Id, agent: Id, normalized: string) {
    id in t && id != agent && t[id].normalized == normalized
  }

  /** Whoever else has this name. */
  ghost function Holder(t: Table, agent: Id, normalized: string): (r: Option<Id>)
    ensures r.Some? ==> Holds(t, r.value, agent, normalized)
    ensures r.None? ==> forall id :: !Holds(t, id, agent, normalized)
  {
    if exists id :: Holds(t, id, agent, normalized) then
      var id :| Holds(t, id, agent, normalized);
      Some(id)
    else None
  }

  function Named(naming: Naming, t: Table, id: Id, name: string): Table
    requires id in t && naming.normalize(name).Some?
  {
    t[id := Profile(name, naming.normalize(name).value, t[id].revision + 1)]
  }

  /** A holder that is not running gets a free variant of its own name. */
  function Release(naming: Naming, t: Table, holder: Id): Option<Table>
    requires holder in t
  {
    var fallback := naming.available(Occupied(t), t[holder].display);
    if fallback.None? || naming.normalize(fallback.value).None? then None
    else Some(Named(naming, t, holder, fallback.value))
  }

  ghost function Rename(naming: Naming, t: Table, agent: Id, name: string, live: set<Id>): Step {
    if naming.hasControl(name) then Step(t, Failure(Invalid)) else
    var display := naming.clean(name);
    if display.None? || naming.normalize(display.value).None? then Step(t, Failure(Invalid))
    else if agent !in t then Step(t, Failure(NotFound))
    else if t[agent].display == display.value then Step(t, Success(()))
    else
      var holder := Holder(t, agent, naming.normalize(display.value).value);
      if holder.None? then Step(Named(naming, t, agent, display.value), Success(()))
      else if holder.value in live then Step(t, Failure(DisplayNameConflict))
      else
        var released := Release(naming, t, holder.value);
        if released.None? then Step(t, Failure(Exhausted))
        else Step(Named(naming, released.value, agent, display.value), Success(()))
  }

  ghost function Update(naming: Naming, t: Table, agent: Id, name: string, expected: nat): Step {
    var display := naming.clean(name);
    if display.None? || naming.normalize(display.value).None? then Step(t, Failure(Invalid))
    else if agent !in t then Step(t, Failure(NotFound))
    else if t[agent].revision != expected then Step(t, Failure(RevisionConflict))
    else if Holder(t, agent, naming.normalize(display.value).value).Some? then Step(t, Failure(DisplayNameConflict))
    else Step(Named(naming, t, agent, display.value), Success(()))
  }

  function Ensure(naming: Naming, t: Table, agent: Id): Step {
    if agent in t then Step(t, Success(()))
    else
      var name := naming.available(Occupied(t), "Agent");
      if name.None? || naming.normalize(name.value).None? then Step(t, Failure(Exhausted))
      else Step(t[agent := Profile(name.value, naming.normalize(name.value).value, 1)], Success(()))
  }

  /** All or nothing for a list of agents. */
  function EnsureAll(naming: Naming, t: Table, agents: seq<Id>): Step {
    if agents == [] then Step(t, Success(()))
    else
      var front := EnsureAll(naming, t, agents[..|agents| - 1]);
      if front.result.Failure? then front
      else
        var step := Ensure(naming, front.table, agents[|agents| - 1]);
        if step.result.Failure? then Step(t, step.result) else step
  }

  // ----------------------------------------------------------------------- invariant

  /** No two profiles compare equal, and each is filed under its own name. */
  ghost predicate Distinct(t: Table) {
    forall a, b | a in t && b in t && t[a].normalized == t[b].normalized :: a == b
  }

  ghost predicate Filed(naming: Naming, t: Table) {
    forall a | a in t :: naming.normalize(t[a].display) == Some(t[a].normalized)
  }

  ghost predicate Inv(naming: Naming, t: Table) { Distinct(t) && Filed(naming, t) }

  lemma NamedKeeps(naming: Naming, t: Table, id: Id, name: string)
    requires Inv(naming, t) && id in t && naming.normalize(name).Some?
    requires forall b :: !Holds(t, b, id, naming.normalize(name).value)
    ensures Inv(naming, Named(naming, t, id, name))
  {
    var after := Named(naming, t, id, name);
    forall a, b | a in after && b in after && after[a].normalized == after[b].normalized ensures a == b {
      if a == id && b != id { assert !Holds(t, b, id, naming.normalize(name).value); }
      if b == id && a != id { assert !Holds(t, a, id, naming.normalize(name).value); }
    }
  }

  /** What happens to everyone but the agent that asked. */
  ghost predicate Bystander(t: Table, after: Table, id: Id, live: set<Id>) {
    && id in t && id in after
    && (after[id] == t[id] ||
        (id !in live && after[id].revision == t[id].revision + 1 && after[id].normalized !in Occupied(t)))
  }

  lemma RenameKeeps(naming: Naming, t: Table, agent: Id, name: string, live: set<Id>)
    requires Inv(naming, t) && Sound(naming)
    ensures Inv(naming, Rename(naming, t, agent, name, live).table)
    ensures Rename(naming, t, agent, name, live).table.Keys == t.Keys
    ensures forall id | id in t && id != agent :: Bystander(t, Rename(naming, t, agent, name, live).table, id, live)
  {
    var step := Rename(naming, t, agent, name, live);
    if step.result.Success? && t[agent].display != naming.clean(name).value {
      var display := naming.clean(name).value;
      var normalized := naming.normalize(display).value;
      var holder := Holder(t, agent, normalized);
      if holder.None? {
        NamedKeeps(naming, t, agent, display);
      } else {
        TakeOver(naming, t, agent, display, holder.value);
      }
    }
  }

  lemma TakeOver(naming: Naming, t: Table, agent: Id, display: string, holder: Id)
    requires Inv(naming, t) && Sound(naming) && agent in t && naming.normalize(display).Some?
    requires Holds(t, holder, agent, naming.normalize(display).value) && Release(naming, t, holder).Some?
    ensures var after := Named(naming, Release(naming, t, holder).value, agent, display);
            && Inv(naming, after) && after.Keys == t.Keys
            && after[holder].normalized !in Occupied(t) && after[holder].revision == t[holder].revision + 1
            && forall b | b in t && b != holder && b != agent :: after[b] == t[b]
  {
  }

  /** The agent that asked has the name it asked for, under the next revision. */
  lemma RenameGives(naming: Naming, t: Table, agent: Id, name: string, live: set<Id>)
    requires Rename(naming, t, agent, name, live).result.Success?
    ensures var after := Rename(naming, t, agent, name, live).table;
            && agent in after && Some(after[agent].display) == naming.clean(name)
            && after[agent].revision
              == t[agent].revision + (if Some(t[agent].display) == naming.clean(name) then 0 else 1)
  {
  }

  /** A name someone else holds is refused exactly when its holder is running or
      no other name can be found for it. */
  lemma RenameRefused(naming: Naming, t: Table, agent: Id, name: string, live: set<Id>, holder: Id)
    requires Inv(naming, t) && Sound(naming) && agent in t && !naming.hasControl(name) && naming.clean(name).Some?
    requires naming.clean(name) != Some(t[agent].display)
    requires Holds(t, holder, agent, naming.normalize(naming.clean(name).value).value)
    ensures Rename(naming, t, agent, name, live).result.Success? <==>
            holder !in live && naming.available(Occupied(t), t[holder].display).Some?
    ensures !Rename(naming, t, agent, name, live).result.Success? ==> Rename(naming, t, agent, name, live).table == t
  {
  }

  lemma UpdateKeeps(naming: Naming, t: Table, agent: Id, name: string, expected: nat)
    requires Inv(naming, t)
    ensures Inv(naming, Update(naming, t, agent, name, expected).table)
    ensures Update(naming, t, agent, name, expected).table.Keys == t.Keys
    ensures forall id | id in t && id != agent :: Update(naming, t, agent, name, expected).table[id] == t[id]
  {
    if Update(naming, t, agent, name, expected).result.Success? {
      NamedKeeps(naming, t, agent, naming.clean(name).value);
    }
  }

  lemma EnsureKeeps(naming: Naming, t: Table, agent: Id)
    requires Inv(naming, t) && Sound(naming)
    ensures Inv(naming, Ensure(naming, t, agent).table)
    ensures t.Keys <= Ensure(naming, t, agent).table.Keys
    ensures forall id | id in t :: Ensure(naming, t, agent).table[id] == t[id]
  {
    var after := Ensure(naming, t, agent).table;
    if after == t { return; }
    forall a, b | a in after && b in after && after[a].normalized == after[b].normalized ensures a == b {
      if a in t { assert t[a].normalized in Occupied(t); }
      if b in t { assert t[b].normalized in Occupied(t); }
    }
  }

  lemma {:induction false} EnsureFails(naming: Naming, t: Table, agents: seq<Id>, n: nat)
    requires n <= |agents| && EnsureAll(naming, t, agents[..n]).result.Failure?
    ensures EnsureAll(naming, t, agents) == EnsureAll(naming, t, agents[..n])
    decreases |agents|
  {
    if n == |agents| {
      assert agents[..n] == agents;
    } else {
      assert agents[..|agents| - 1][..n] == agents[..n];
      EnsureFails(naming, t, agents[..|agents| - 1], n);
    }
  }

  predicate Extends(t: Table, u: Table) { t.Keys <= u.Keys && forall id | id in t :: u[id] == t[id] }

  /** Nobody loses or changes a profile, and a failure changes nothing. */
  lemma {:induction false} EnsureAllKeeps(naming: Naming, t: Table, agents: seq<Id>)
    requires Inv(naming, t) && Sound(naming)
    ensures var step := EnsureAll(naming, t, agents);
            Inv(naming, step.table) && Extends(t, step.table) && (step.result.Failure? ==> step.table == t)
  {
    if agents != [] {
      var n := |agents| - 1;
      EnsureAllKeeps(naming, t, agents[..n]);
      EnsureKeeps(naming, EnsureAll(naming, t, agents[..n]).table, agents[n]);
    }
  }

  /** After success every listed agent has a profile. */
  lemma {:induction false} EnsureAllCovers(naming: Naming, t: Table, agents: seq<Id>, i: nat)
    requires i < |agents| && EnsureAll(naming, t, agents).result.Success?
    ensures agents[i] in EnsureAll(naming, t, agents).table
  {
    var n := |agents| - 1;
    if i < n {
      EnsureAllCovers(naming, t, agents[..n], i);
    }
  }

  // ---------------------------------------------------------------------------- runs

  datatype Op =
    | EnsureOp(agent: Id)
    | RenameOp(agent: Id, name: string, live: set<Id>)
    | UpdateOp(agent: Id, name: string, expected: nat)

  ghost function Apply(naming: Naming, t: Table, op: Op): Table {
    match op
    case EnsureOp(agent) => Ensure(naming, t, agent).table
    case RenameOp(agent, name, live) => Rename(naming, t, agent, name, live).table
    case UpdateOp(agent, name, expected) => Update(naming, t, agent, name, expected).table
  }

  ghost function Run(naming: Naming, t: Table, ops: seq<Op>): Table
    decreases ops
  {
    if ops == [] then t else Run(naming, Apply(naming, t, ops[0]), ops[1..])
  }

  /** What one step may do to a table. */
  ghost predicate Moves(t: Table, after: Table, op: Op) {
    && t.Keys <= after.Keys
    && (forall id | id in t :: after[id].revision >= t[id].revision)
    && (forall id | id in t && (op.RenameOp? ==> id in op.live) && op.agent != id :: after[id] == t[id])
  }

  lemma RenameMoves(naming: Naming, t: Table, op: Op)
    requires Inv(naming, t) && Sound(naming) && op.RenameOp?
    ensures Moves(t, Rename(naming, t, op.agent, op.name, op.live).table, op)
  {
    var after := Rename(naming, t, op.agent, op.name, op.live).table;
    RenameKeeps(naming, t, op.agent, op.name, op.live);
    forall id | id in t
      ensures after[id].revision >= t[id].revision && (id in op.live && op.agent != id ==> after[id] == t[id])
    {
      if id != op.agent { assert Bystander(t, after, id, op.live); }
    }
  }

  lemma ApplyKeeps(naming: Naming, t: Table, op: Op)
    requires Inv(naming, t) && Sound(naming)
    ensures Inv(naming, Apply(naming, t, op)) && Moves(t, Apply(naming, t, op), op)
  {
    match op
    case EnsureOp(agent) => EnsureKeeps(naming, t, agent);
    case UpdateOp(agent, name, expected) => UpdateKeeps(naming, t, agent, name, expected);
    case RenameOp(agent, name, live) =>
      RenameKeeps(naming, t, agent, name, live);
      RenameMoves(naming, t, op);
  }

  /** An agent that runs through all of a run and asks for nothing. */
  ghost predicate Undisturbed(id: Id, ops: seq<Op>) {
    forall i | 0 <= i < |ops| :: ops[i].agent != id && (ops[i].RenameOp? ==> id in ops[i].live)
  }

  /** Names stay distinct over every run, revisions never go back, and a running
      agent that asks for nothing keeps its profile. */
  lemma {:induction false} RunKeeps(naming: Naming, t: Table, ops: seq<Op>)
    requires Inv(naming, t) && Sound(naming)
    ensures Inv(naming, Run(naming, t, ops)) && t.Keys <= Run(naming, t, ops).Keys
    ensures forall id | id in t :: Run(naming, t, ops)[id].revision >= t[id].revision
    ensures forall id | id in t && Undisturbed(id, ops) :: Run(naming, t, ops)[id] == t[id]
    decreases ops
  {
    if ops != [] {
      var next := Apply(naming, t, ops[0]);
      ApplyKeeps(naming, t, ops[0]);
      RunKeeps(naming, next, ops[1..]);
      forall id | id in t
        ensures Run(naming, t, ops)[id].revision >= t[id].revision
        ensures Undisturbed(id, ops) ==> Run(naming, t, ops)[id] == t[id]
      {
        assert Run(naming, next, ops[1..])[id].revision >= next[id].revision >= t[id].revision;
        if Undisturbed(id, ops) { assert Undisturbed(id, ops[1..]); }
      }
    }
  }
}
