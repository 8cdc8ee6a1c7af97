/** The profile table with the real name search, and the store that updates it. */
module ProfileStore {
  import opened Wrappers
  import NameVariants
  import NameSearch
  import opened DisplayNames

  function NamingOf(env: NameVariants.Env, hasControl: string -> bool): Naming {
    Naming(hasControl,
           (raw: string) => NameVariants.Clean(env, raw),
           (raw: string) => NameVariants.Normalize(env, raw),
           (occupied: set<string>, raw: string) => NameVariants.Available(env, occupied, raw))
  }

  lemma NamingIsSound(env: NameVariants.Env, hasControl: string -> bool)
    requires NameVariants.Standard(env)
    ensures Sound(NamingOf(env, hasControl))
  {
    var naming := NamingOf(env, hasControl);
    forall raw | naming.clean(raw).Some? ensures naming.normalize(naming.clean(raw).value).Some? {
      NameVariants.CleanIsClean(env, raw);
      NameVariants.CleanAgain(env, NameVariants.Clean(env, raw).value);
    }
    forall occupied, raw | naming.available(occupied, raw).Some?
      ensures naming.normalize(naming.available(occupied, raw).value).Some?
      ensures naming.normalize(naming.available(occupied, raw).value).value !in occupied
    {
      NameSearch.FoundIsFree(env, occupied, raw);
    }
  }

  lemma {:induction false} OccupiedSize(t: Table)
    ensures |Occupied(t)| <= |t|
    decreases |t|
  {
    if |t| == 0 {
      assert Occupied(t) == {};
    } else {
      var id :| id in t;
      var rest := t - {id};
      OccupiedSize(rest);
      assert Occupied(t) == Occupied(rest) + {t[id].normalized} by {
        forall s | s in Occupied(t) ensures s in Occupied(rest) + {t[id].normalized} {
          var a :| a in t && t[a].normalized == s;
          if a != id { assert a in rest && rest[a].normalized == s; }
        }
        forall s | s in Occupied(rest) ensures s in Occupied(t) {
          var a :| a in rest && rest[a].normalized == s;
          assert a in t && t[a].normalized == s;
        }
      }
    }
  }

  /** A name can always be found for a text that does not collide with its own variants. */
  lemma NameFound(env: NameVariants.Env, hasControl: string -> bool, t: Table, raw: string)
    requires NameVariants.Standard(env) && |t| < NameVariants.USIZE_MAX && NameVariants.Clean(env, raw).Some?
    requires forall k | 2 <= k <= |t| + 1 :: !NameSearch.Collides(NameVariants.Clean(env, raw).value, k)
    ensures NamingOf(env, hasControl).available(Occupied(t), raw).Some?
  {
    var base := NameVariants.Clean(env, raw).value;
    NameVariants.CleanIsClean(env, raw);
    NameVariants.CleanAgain(env, base);
    OccupiedSize(t);
    NameSearch.SearchSucceeds(env, Occupied(t), base);
  }

  lemma AgentIsClean(env: NameVariants.Env)
    requires NameVariants.Standard(env)
    ensures NameVariants.IsClean(env, "Agent") && NameVariants.Clean(env, "Agent") == Some("Agent")
  {
    var s := "Agent";
    assert forall i | 0 <= i < |s| :: NameVariants.Letter(s[i]);
    NameVariants.CleanAgain(env, s);
  }

  /** Creating a profile never fails for want of a name. */
  lemma EnsureSucceeds(env: NameVariants.Env, hasControl: string -> bool, t: Table, agent: Id)
    requires NameVariants.Standard(env) && |t| < NameVariants.USIZE_MAX
    ensures Ensure(NamingOf(env, hasControl), t, agent).result.Success?
  {
    AgentIsClean(env);
    NamingIsSound(env, hasControl);
    NameFound(env, hasControl, t, "Agent");
  }

  /** One of the first variants of a name is the name itself again. */
  ghost predicate Repeats(env: NameVariants.Env, raw: string, bound: nat) {
    && NameVariants.Clean(env, raw).Some?
    && exists k | 2 <= k <= bound :: NameSearch.Collides(NameVariants.Clean(env, raw).value, k)
  }

  lemma ReleaseFails(env: NameVariants.Env, hasControl: string -> bool, t: Table, holder: Id)
    requires NameVariants.Standard(env) && |t| < NameVariants.USIZE_MAX && holder in t
    requires NameVariants.Clean(env, t[holder].display).Some?
    requires Release(NamingOf(env, hasControl), t, holder).None?
    ensures Repeats(env, t[holder].display, |t| + 1)
  {
    NamingIsSound(env, hasControl);
    if !Repeats(env, t[holder].display, |t| + 1) {
      NameFound(env, hasControl, t, t[holder].display);
    }
  }

  /** Taking the name of a holder that is not running fails only when one of the
      variants of the holder's name is that name again. */
  lemma RenameBlocked(
    env: NameVariants.Env, hasControl: string -> bool, t: Table, agent: Id, name: string, taken: string,
    live: set<Id>, holder: Id)
    requires NameVariants.Standard(env) && |t| < NameVariants.USIZE_MAX && Inv(NamingOf(env, hasControl), t)
    requires agent in t && !hasControl(name) && NameVariants.Normalize(env, name) == Some(taken)
    requires Holds(t, holder, agent, taken) && holder !in live
    requires Rename(NamingOf(env, hasControl), t, agent, name, live).result.Failure?
    ensures Repeats(env, t[holder].display, |t| + 1)
  {
    var naming := NamingOf(env, hasControl);
    NameVariants.CleanIsClean(env, name);
    NameVariants.CleanAgain(env, NameVariants.Clean(env, name).value);
    assert naming.normalize(t[holder].display) == Some(t[holder].normalized);
    assert Holder(t, agent, taken) == Some(holder);
    ReleaseFails(env, hasControl, t, holder);
  }

  // --------------------------------------------------------------- a rename that fails

  function Row(c: char, n: nat): string { seq(n, _ => c) }

  /** A name of 80 characters that ends like its second variant, and its third. */
  const LONG: string := Row('x', 76) + " (2)"
  const LONG_THIRD: string := Row('x', 76) + " (3)"

  lemma LongName(env: NameVariants.Env)
    requires NameVariants.Standard(env)
    ensures NameVariants.IsClean(env, LONG) && NameSearch.Collides(LONG, 2)
  {
  }

  lemma LongThird(env: NameVariants.Env)
    requires NameVariants.Standard(env)
    ensures NameVariants.Variant(LONG, 3) == LONG_THIRD && NameVariants.IsClean(env, LONG_THIRD)
  {
    assert NameVariants.Decimal(3) == ['3'];
    assert NameVariants.Ending(3) == " (3)";
    assert LONG[..76] == Row('x', 76);
  }

  /** The variants of a colliding base: the second is the base again. */
  lemma TwoNames(env: NameVariants.Env, base: string) returns (first: string, third: string)
    requires NameVariants.Standard(env) && NameVariants.IsClean(env, base) && NameSearch.Collides(base, 2)
    ensures NameSearch.IsName(env, base, 0, first) && NameSearch.IsName(env, base, 2, third) && first != third
    ensures NameVariants.Available(env, {first, third}, base).None?
  {
    var names := NameSearch.ListNames(env, base, 3);
    first, third := names[0], names[2];
    NamesOfThree(env, base, names);
    NameSearch.AllTaken(env, {first, third}, base, names);
  }

  lemma NamesOfThree(env: NameVariants.Env, base: string, names: seq<string>)
    requires NameVariants.Standard(env) && NameVariants.IsClean(env, base) && NameSearch.Collides(base, 2)
    requires |names| == 3 && NameSearch.Lists(env, base, names)
    ensures names[1] == names[0] != names[2]
    ensures NameSearch.IsName(env, base, 0, names[0]) && NameSearch.IsName(env, base, 2, names[2])
  {
    assert NameSearch.IsName(env, base, 0, names[0]) && NameSearch.IsName(env, base, 1, names[1]);
    assert NameSearch.IsName(env, base, 2, names[2]);
    NameSearch.CollisionExact(env, base, 2);
    NameSearch.VariantsDiffer(env, base, 2, 3);
  }

  /** The end of a folded name shows whether the name ends in a fixed character. */
  lemma FoldEnds(env: NameVariants.Env, s: string)
    requires NameVariants.Standard(env) && s != []
    ensures var f := NameVariants.Fold(env, s);
            f != [] && (NameVariants.Fixed(f[|f| - 1]) <==> NameVariants.Fixed(s[|s| - 1]))
  {
    var c := s[|s| - 1];
    assert env.fold(c) != [];
    assert NameVariants.Fold(env, s) == NameVariants.Fold(env, s[..|s| - 1]) + env.fold(c);
  }

  /** How the names of this example relate. */
  ghost predicate Example(naming: Naming, plain: string, first: string, third: string) {
    && !naming.hasControl(LONG) && !naming.hasControl(LONG_THIRD)
    && naming.clean(LONG) == Some(LONG) && naming.clean(LONG_THIRD) == Some(LONG_THIRD)
    && naming.normalize("Agent") == Some(plain) && naming.normalize(LONG) == Some(first)
    && naming.normalize(LONG_THIRD) == Some(third)
    && plain != first && plain != third && first != third
    && naming.available({}, "Agent") == Some("Agent") && naming.available({third}, "Agent") == Some("Agent")
    && naming.available({first, third}, LONG).None?
  }

  lemma ExampleHolds(env: NameVariants.Env, hasControl: string -> bool)
    returns (plain: string, first: string, third: string)
    requires NameVariants.Standard(env) && !hasControl(LONG) && !hasControl(LONG_THIRD)
    ensures Example(NamingOf(env, hasControl), plain, first, third)
  {
    LongName(env);
    LongThird(env);
    AgentIsClean(env);
    NameVariants.CleanAgain(env, LONG);
    NameVariants.CleanAgain(env, LONG_THIRD);
    plain := NameVariants.Fold(env, "Agent");
    first, third := TwoNames(env, LONG);
    FoldEnds(env, "Agent");
    FoldEnds(env, LONG);
    FoldEnds(env, LONG_THIRD);
    FirstIsFree(env, {}, plain);
    FirstIsFree(env, {third}, plain);
  }

  lemma FirstIsFree(env: NameVariants.Env, occupied: set<string>, plain: string)
    requires NameVariants.Standard(env) && NameVariants.Normalize(env, "Agent") == Some(plain) && plain !in occupied
    ensures NameVariants.Available(env, occupied, "Agent") == Some("Agent")
  {
    AgentIsClean(env);
    assert NameVariants.NameOf(env, "Agent")(1) == Some(plain);
  }

  function ExampleTable(first: string, third: string): Table {
    map[1 := Profile(LONG_THIRD, third, 2), 2 := Profile(LONG, first, 2)]
  }

  lemma OneProfile(id: Id, p: Profile)
    ensures Occupied(map[id := p]) == {p.normalized}
  {
    var t := map[id := p];
    assert t[id].normalized in Occupied(t);
  }

  lemma RunFour(naming: Naming, t: Table, a: Op, b: Op, c: Op, d: Op)
    ensures Run(naming, t, [a, b, c, d]) == Apply(naming, Apply(naming, Apply(naming, Apply(naming, t, a), b), c), d)
  {
    assert [a, b, c, d][1..] == [b, c, d] && [b, c, d][1..] == [c, d] && [c, d][1..] == [d] && [d][1..] == [];
    var t1 := Apply(naming, t, a);
    var t2 := Apply(naming, t1, b);
    var t3 := Apply(naming, t2, c);
    assert Run(naming, t3, [d]) == Apply(naming, t3, d);
    assert Run(naming, t2, [c, d]) == Run(naming, t3, [d]);
    assert Run(naming, t1, [b, c, d]) == Run(naming, t2, [c, d]);
  }

  /** Agent 1 is created and renamed, then agent 2. */
  lemma ExampleRun(naming: Naming, plain: string, first: string, third: string)
    requires Example(naming, plain, first, third)
    ensures Run(naming, map[], [EnsureOp(1), RenameOp(1, LONG_THIRD, {}), EnsureOp(2), RenameOp(2, LONG, {})])
            == ExampleTable(first, third)
  {
    RunFour(naming, map[], EnsureOp(1), RenameOp(1, LONG_THIRD, {}), EnsureOp(2), RenameOp(2, LONG, {}));
    var t1: Table := map[1 := Profile("Agent", plain, 1)];
    var t2: Table := map[1 := Profile(LONG_THIRD, third, 2)];
    var t3: Table := t2[2 := Profile("Agent", plain, 1)];
    assert Occupied(map[]) == {};
    assert Apply(naming, map[], EnsureOp(1)) == t1;
    assert Apply(naming, t1, RenameOp(1, LONG_THIRD, {})) == t2;
    OneProfile(1, t2[1]);
    assert Apply(naming, t2, EnsureOp(2)) == t3;
    assert Apply(naming, t3, RenameOp(2, LONG, {})) == ExampleTable(first, third);
  }

  lemma ExampleStuck(naming: Naming, plain: string, first: string, third: string)
    requires Example(naming, plain, first, third)
    ensures var t := ExampleTable(first, third); Rename(naming, t, 1, LONG, {}) == Step(t, Failure(Exhausted))
  {
    var t := ExampleTable(first, third);
    assert Occupied(t) == {first, third} by {
      assert t[1].normalized in Occupied(t) && t[2].normalized in Occupied(t);
    }
    assert Holds(t, 2, 1, first);
    assert Holder(t, 1, first) == Some(2);
  }

  /** From an empty table: agent 1 takes the third variant of an 80-character name
      that ends in " (2)", agent 2 takes that name. Agent 1 cannot take it over
      although agent 2 is not running. */
  lemma RenameCanFail(env: NameVariants.Env, hasControl: string -> bool)
    requires NameVariants.Standard(env) && !hasControl(LONG) && !hasControl(LONG_THIRD)
    ensures var naming := NamingOf(env, hasControl);
            var t := Run(naming, map[], [EnsureOp(1), RenameOp(1, LONG_THIRD, {}), EnsureOp(2), RenameOp(2, LONG, {})]);
            && 1 in t && 2 in t && t[2].display == LONG
            && Rename(naming, t, 1, LONG, {}) == Step(t, Failure(Exhausted))
  {
    var plain, first, third := ExampleHolds(env, hasControl);
    ExampleRun(NamingOf(env, hasControl), plain, first, third);
    ExampleStuck(NamingOf(env, hasControl), plain, first, third);
  }

  // ----------------------------------------------------------------------- the store

  method FindHolder(t: Table, agent: Id, normalized: string) returns (r: Option<Id>)
    requires Distinct(t)
    ensures r == Holder(t, agent, normalized)
  {
    var todo := t.Keys;
    while todo != {}
      invariant todo <= t.Keys && forall id | id in t && id !in todo :: !Holds(t, id, agent, normalized)
      decreases todo
    {
      var id :| id in todo;
      if Holds(t, id, agent, normalized) {
        return Some(id);
      }
      todo := todo - {id};
    }
    return None;
  }

  class Store {
    const naming: Naming
    var profiles: Table

    ghost predicate Valid() reads this { Sound(naming) && Inv(naming, profiles) }

    constructor (naming: Naming)
      requires Sound(naming)
      ensures Valid() && profiles == map[] && this.naming == naming
    {
      this.naming := naming;
      profiles := map[];
    }

    method RenameDisplayName(agent: Id, name: string, live: set<Id>) returns (r: Result<(), Error>)
      requires Valid()
      modifies this
      ensures Valid() && Step(profiles, r) == Rename(naming, old(profiles), agent, name, live)
    {
      RenameKeeps(naming, profiles, agent, name, live);
      if naming.hasControl(name) { return Failure(Invalid); }
      var display := naming.clean(name);
      if display.None? { return Failure(Invalid); }
      var normalized := naming.normalize(display.value);
      if normalized.None? { return Failure(Invalid); }
      if agent !in profiles { return Failure(NotFound); }
      if profiles[agent].display == display.value { return Success(()); }
      var holder := FindHolder(profiles, agent, normalized.value);
      if holder.Some? {
        if holder.value in live { return Failure(DisplayNameConflict); }
        var released := Release(naming, profiles, holder.value);
        if released.None? { return Failure(Exhausted); }
        profiles := released.value;
      }
      profiles := Named(naming, profiles, agent, display.value);
      return Success(());
    }

    method UpdateProfile(agent: Id, name: string, expected: nat) returns (r: Result<(), Error>)
      requires Valid()
      modifies this
      ensures Valid() && Step(profiles, r) == Update(naming, old(profiles), agent, name, expected)
    {
      UpdateKeeps(naming, profiles, agent, name, expected);
      var display := naming.clean(name);
      if display.None? { return Failure(Invalid); }
      var normalized := naming.normalize(display.value);
      if normalized.None? { return Failure(Invalid); }
      if agent !in profiles { return Failure(NotFound); }
      if profiles[agent].revision != expected { return Failure(RevisionConflict); }
      var holder := FindHolder(profiles, agent, normalized.value);
      if holder.Some? { return Failure(DisplayNameConflict); }
      profiles := Named(naming, profiles, agent, display.value);
      return Success(());
    }

    /** One agent after the other; those that have a profile are passed over. A
        failure takes back what the call had done. */
    method EnsureProfiles(agents: seq<Id>) returns (r: Result<(), Error>)
      requires Valid()
      modifies this
      ensures Valid() && Step(profiles, r) == EnsureAll(naming, old(profiles), agents)
    {
      var table := profiles;
      for k := 0 to |agents|
        invariant EnsureAll(naming, profiles, agents[..k]) == Step(table, Success(()))
      {
        assert agents[..k + 1][..k] == agents[..k];
        var step := Ensure(naming, table, agents[k]);
        if step.result.Failure? {
          EnsureFails(naming, profiles, agents, k + 1);
          return step.result;
        }
        table := step.table;
      }
      assert agents[..|agents|] == agents;
      EnsureAllKeeps(naming, profiles, agents);
      profiles := table;
      return Success(());
    }
  }
}
