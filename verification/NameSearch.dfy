/** When the search for a free display name succeeds. */
module NameSearch {
  import opened Wrappers
  import opened NameVariants

  // ------------------------------------------------------- what a variant becomes

  lemma {:induction false} CollapseSolid(env: Env, a: string, b: string)
    requires forall i | 0 <= i < |b| :: !env.blank(b[i])
    ensures Collapse(env, a + b) == Collapse(env, a) + b
    decreases |b|
  {
    if b == [] {
      assert a + b == a;
    } else {
      var n := |b| - 1;
      CollapseSolid(env, a, b[..n]);
      assert (a + b)[..|a + b| - 1] == a + b[..n];
      assert b[..n] + [b[n]] == b;
    }
  }

  /** What the ending is put behind once the name is cleaned. */
  function Stem(base: string, k: nat): string { TrimEnd(Prefix(base, k)) }

  lemma StemOf(env: Env, base: string, k: nat)
    requires IsClean(env, base) && 2 <= k <= USIZE_MAX
    ensures var stem, prefix := Stem(base, k), Prefix(base, k);
            && stem <= base && stem != [] && stem[|stem| - 1] != ' '
            && |prefix| == (if |base| + |Ending(k)| <= MAX_CHARS then |base| else MAX_CHARS - |Ending(k)|)
            && |prefix| - 1 <= |stem| <= |prefix| && Neat(env, prefix) && prefix <= base
            && (stem == prefix || prefix == stem + [' '])
  {
    EndingShort(k);
    var prefix := Prefix(base, k);
    assert prefix == base[..|prefix|];
    assert prefix[0] != ' ';
  }

  lemma CollapseLast(env: Env, s: string, c: char)
    ensures Collapse(env, s + [c]) == Push(env, Collapse(env, s), c)
  {
  }

  lemma PushSpace(env: Env, s: string)
    requires env.blank(' ') && s != []
    ensures Push(env, s, ' ') == TrimEnd(s) + [' ']
  {
  }

  lemma SpaceCollapses(env: Env, prefix: string)
    requires Standard(env) && Neat(env, prefix) && prefix != []
    ensures Collapse(env, prefix + [' ']) == TrimEnd(prefix) + [' ']
  {
    NeatCollapses(env, prefix);
    CollapseLast(env, prefix, ' ');
    assert Fixed(' ');
    PushSpace(env, prefix);
  }

  function Number(k: nat): string { ['('] + Decimal(k) + [')'] }

  lemma NumberSolid(env: Env, k: nat)
    requires Standard(env)
    ensures Ending(k) == [' '] + Number(k)
    ensures forall i | 0 <= i < |Number(k)| :: !env.blank(Number(k)[i])
  {
    DecimalDigits(k);
    forall i | 0 <= i < |Number(k)| ensures !env.blank(Number(k)[i]) {
      if 1 <= i <= |Decimal(k)| { assert Number(k)[i] == Decimal(k)[i - 1]; }
      assert Fixed(Number(k)[i]) && Number(k)[i] != ' ';
    }
  }

  lemma VariantCollapses(env: Env, base: string, k: nat)
    requires Standard(env) && IsClean(env, base) && 2 <= k <= USIZE_MAX
    ensures Collapse(env, Variant(base, k)) == Stem(base, k) + Ending(k)
  {
    var prefix := Prefix(base, k);
    StemOf(env, base, k);
    NumberSolid(env, k);
    calc {
      Collapse(env, Variant(base, k));
      { assert prefix + ([' '] + Number(k)) == (prefix + [' ']) + Number(k); }
      Collapse(env, (prefix + [' ']) + Number(k));
      { CollapseSolid(env, prefix + [' '], Number(k)); }
      Collapse(env, prefix + [' ']) + Number(k);
      { SpaceCollapses(env, prefix); }
      (Stem(base, k) + [' ']) + Number(k);
      Stem(base, k) + ([' '] + Number(k));
    }
  }

  lemma VariantClean(env: Env, base: string, k: nat)
    requires Standard(env) && IsClean(env, base) && 2 <= k <= USIZE_MAX
    ensures Clean(env, Variant(base, k)) == Some(Stem(base, k) + Ending(k))
  {
    VariantCollapses(env, base, k);
    StemOf(env, base, k);
    EndingShort(k);
    var value := Stem(base, k) + Ending(k);
    assert value[|value| - 1] == ')';
  }

  lemma VariantNormal(env: Env, base: string, k: nat)
    requires Standard(env) && IsClean(env, base) && 2 <= k <= USIZE_MAX
    ensures Normalize(env, Variant(base, k)) == Some(Fold(env, Stem(base, k)) + Ending(k))
  {
    VariantClean(env, base, k);
    FoldConcat(env, Stem(base, k), Ending(k));
    EndingFixed(k);
    FoldFixed(env, Ending(k));
  }

  // --------------------------------------------------------------------- collisions

  /** The base fills the 80 characters, or all but one, and already ends in " (k)". */
  predicate Collides(base: string, k: nat) {
    && (|base| == MAX_CHARS || |base| == MAX_CHARS - 1)
    && |Ending(k)| <= |base| && base[|base| - |Ending(k)|..] == Ending(k)
  }

  lemma TailIsEnding(env: Env, base: string, k: nat)
    requires IsClean(env, base) && 2 <= k <= USIZE_MAX
    ensures Stem(base, k) <= base
    ensures base[|Stem(base, k)|..] == Ending(k) <==> Collides(base, k)
  {
    StemOf(env, base, k);
    EndingShort(k);
    var stem, prefix, e := Stem(base, k), Prefix(base, k), |Ending(k)|;
    if Collides(base, k) {
      var at := |base| - e;
      assert base[at] == base[at..][0] == ' ';
      assert base[at - 1] != ' ';
      assert prefix == base[..MAX_CHARS - e];
      if |base| == MAX_CHARS {
        assert prefix[|prefix| - 1] == base[at - 1];
      } else {
        assert prefix[|prefix| - 1] == base[at];
      }
    }
  }

  /** A variant is the same name as its base exactly when they collide. */
  lemma CollisionExact(env: Env, base: string, k: nat)
    requires Standard(env) && IsClean(env, base) && 2 <= k <= USIZE_MAX
    ensures Normalize(env, Variant(base, k)) == Normalize(env, base) <==> Collides(base, k)
  {
    VariantNormal(env, base, k);
    CleanAgain(env, base);
    TailIsEnding(env, base, k);
    var stem := Stem(base, k);
    var tail := base[|stem|..];
    assert base == stem + tail;
    FoldConcat(env, stem, tail);
    EndingFixed(k);
    if tail == Ending(k) {
      FoldFixed(env, tail);
    } else if Fold(env, base) == Fold(env, stem) + Ending(k) {
      SameTail(Fold(env, stem), Fold(env, tail), Ending(k));
      FoldsToFixed(env, tail);
      assert false;
    }
  }

  lemma SameTail(a: string, b: string, c: string)
    requires a + b == a + c
    ensures b == c
  {
    assert b == (a + b)[|a|..] && c == (a + c)[|a|..];
  }

  /** Different numbers give different names. */
  lemma VariantsDiffer(env: Env, base: string, j: nat, k: nat)
    requires Standard(env) && IsClean(env, base) && 2 <= j <= USIZE_MAX && 2 <= k <= USIZE_MAX && j != k
    ensures Normalize(env, Variant(base, j)) != Normalize(env, Variant(base, k))
  {
    VariantNormal(env, base, j);
    VariantNormal(env, base, k);
    if Fold(env, Stem(base, j)) + Ending(j) == Fold(env, Stem(base, k)) + Ending(k) {
      EndingTells(Fold(env, Stem(base, j)), j, Fold(env, Stem(base, k)), k);
    }
  }

  lemma CollidesOnce(base: string, j: nat, k: nat)
    requires Collides(base, j) && Collides(base, k)
    ensures j == k
  {
    var a, b := base[..|base| - |Ending(j)|], base[..|base| - |Ending(k)|];
    assert base == a + Ending(j) == b + Ending(k);
    EndingTells(a, j, b, k);
  }

  // --------------------------------------------------------------------- pigeonhole

  /** `name` is what the variant after the first i is compared by. */
  ghost predicate IsName(env: Env, base: string, i: nat, name: string) {
    NameOf(env, base)(i + 1) == Some(name)
  }

  /** `names` belong to the first variants. */
  ghost predicate Lists(env: Env, base: string, names: seq<string>) {
    forall i {:trigger IsName(env, base, i, names[i])} | 0 <= i < |names| :: IsName(env, base, i, names[i])
  }

  lemma NameExists(env: Env, base: string, i: nat) returns (name: string)
    requires Standard(env) && IsClean(env, base) && i < USIZE_MAX
    ensures IsName(env, base, i, name)
  {
    if i == 0 {
      CleanAgain(env, base);
      name := Fold(env, base);
    } else {
      VariantNormal(env, base, i + 1);
      name := Fold(env, Stem(base, i + 1)) + Ending(i + 1);
    }
  }

  lemma {:induction false} ListNames(env: Env, base: string, n: nat) returns (names: seq<string>)
    requires Standard(env) && IsClean(env, base) && n <= USIZE_MAX
    ensures |names| == n && Lists(env, base, names)
  {
    names := [];
    if n > 0 {
      var front := ListNames(env, base, n - 1);
      var name := NameExists(env, base, n - 1);
      names := front + [name];
      forall i | 0 <= i < n ensures IsName(env, base, i, names[i]) {
        if i < n - 1 { assert IsName(env, base, i, front[i]); }
      }
    }
  }

  lemma NamesDiffer(env: Env, base: string, i: nat, j: nat, a: string, b: string)
    requires Standard(env) && IsClean(env, base) && i < j < USIZE_MAX && !(i == 0 && Collides(base, j + 1))
    requires IsName(env, base, i, a) && IsName(env, base, j, b)
    ensures a != b
  {
    if i == 0 { CollisionExact(env, base, j + 1); } else { VariantsDiffer(env, base, i + 1, j + 1); }
  }

  ghost predicate AllDiffer(names: seq<string>) {
    forall i, j | 0 <= i < j < |names| :: names[i] != names[j]
  }

  lemma {:induction false} Pigeonhole(names: seq<string>, holes: set<string>)
    requires AllDiffer(names) && forall i | 0 <= i < |names| :: names[i] in holes
    ensures |names| <= |holes|
  {
    if names != [] {
      var n := |names| - 1;
      Pigeonhole(names[..n], holes - {names[n]});
    }
  }

  function Elements(names: seq<string>): set<string> {
    if names == [] then {} else Elements(names[..|names| - 1]) + {names[|names| - 1]}
  }

  lemma {:induction false} ElementsOf(names: seq<string>)
    ensures forall i | 0 <= i < |names| :: names[i] in Elements(names)
    ensures AllDiffer(names) ==> |Elements(names)| == |names|
  {
    if names != [] {
      var n := |names| - 1;
      ElementsOf(names[..n]);
      forall i | 0 <= i < n ensures names[i] in Elements(names) { assert names[..n][i] == names[i]; }
      if AllDiffer(names) && names[n] in Elements(names[..n]) {
        ElementsFrom(names[..n], names[n]);
      }
    }
  }

  lemma {:induction false} ElementsFrom(names: seq<string>, x: string)
    requires x in Elements(names)
    ensures exists i :: 0 <= i < |names| && names[i] == x
  {
    var n := |names| - 1;
    if names[n] != x {
      ElementsFrom(names[..n], x);
      var i :| 0 <= i < n && names[..n][i] == x;
      assert names[i] == x;
    }
  }

  /** Without a collision the first n variants are n names. */
  lemma NamesAllDiffer(env: Env, base: string, names: seq<string>)
    requires Standard(env) && IsClean(env, base) && Lists(env, base, names) && |names| <= USIZE_MAX
    requires forall k | 2 <= k <= |names| :: !Collides(base, k)
    ensures AllDiffer(names)
  {
    forall i, j | 0 <= i < j < |names| ensures names[i] != names[j] {
      assert IsName(env, base, i, names[i]) && IsName(env, base, j, names[j]);
      NamesDiffer(env, base, i, j, names[i], names[j]);
    }
  }

  ghost predicate Listed(name: nat -> Option<string>, names: seq<string>) {
    forall i | 0 <= i < |names| :: name(i + 1) == Some(names[i])
  }

  /** A found name is the first that is free; finding none means all are taken. */
  lemma {:induction false} SearchSpec(name: nat -> Option<string>, occupied: set<string>, names: seq<string>, k: nat)
    returns (i: nat)
    requires Listed(name, names) && k <= |names|
    ensures k <= i <= |names| && forall j | k <= j < i :: names[j] in occupied
    ensures FirstFree(name, occupied, k + 1, |names|) == (if i == |names| then None else Some(i + 1))
    ensures i < |names| ==> names[i] !in occupied
    decreases |names| - k
  {
    i := k;
    if k < |names| && names[k] in occupied { i := SearchSpec(name, occupied, names, k + 1); }
  }

  lemma ListsListed(env: Env, base: string, names: seq<string>)
    requires Lists(env, base, names)
    ensures Listed(NameOf(env, base), names)
  {
    forall i | 0 <= i < |names| ensures NameOf(env, base)(i + 1) == Some(names[i]) {
      assert IsName(env, base, i, names[i]);
    }
  }

  /** The pigeonhole: without a collision the search succeeds. */
  lemma SearchSucceeds(env: Env, occupied: set<string>, base: string)
    requires Standard(env) && IsClean(env, base) && |occupied| < USIZE_MAX
    requires forall k | 2 <= k <= |occupied| + 1 :: !Collides(base, k)
    ensures Available(env, occupied, base).Some?
  {
    CleanAgain(env, base);
    var names := ListNames(env, base, |occupied| + 1);
    ListsListed(env, base, names);
    var i := SearchSpec(NameOf(env, base), occupied, names, 0);
    NamesAllDiffer(env, base, names);
    if i == |names| { Pigeonhole(names, occupied); }
  }

  /** With a collision the names of the variants before it are one too few. */
  lemma SearchFails(env: Env, base: string, k: nat) returns (occupied: set<string>)
    requires Standard(env) && IsClean(env, base) && 2 <= k <= USIZE_MAX && Collides(base, k)
    ensures |occupied| == k - 1 && Available(env, occupied, base).None?
  {
    var names := ListNames(env, base, k - 1);
    forall j | 2 <= j <= k - 1 ensures !Collides(base, j) {
      if Collides(base, j) { CollidesOnce(base, j, k); }
    }
    NamesAllDiffer(env, base, names);
    ElementsOf(names);
    occupied := Elements(names);
    ListsAgain(env, base, k, names);
    AllTaken(env, occupied, base, names + [names[0]]);
  }

  lemma AllTaken(env: Env, occupied: set<string>, base: string, names: seq<string>)
    requires Standard(env) && IsClean(env, base) && Lists(env, base, names) && |names| == |occupied| + 1
    requires forall i | 0 <= i < |names| :: names[i] in occupied
    ensures Available(env, occupied, base).None?
  {
    CleanAgain(env, base);
    ListsListed(env, base, names);
    var i := SearchSpec(NameOf(env, base), occupied, names, 0);
  }

  lemma ListsAgain(env: Env, base: string, k: nat, names: seq<string>)
    requires Standard(env) && IsClean(env, base) && 2 <= k <= USIZE_MAX && Collides(base, k)
    requires Lists(env, base, names) && |names| == k - 1
    ensures Lists(env, base, names + [names[0]])
  {
    var all := names + [names[0]];
    assert IsName(env, base, 0, names[0]);
    CollisionExact(env, base, k);
    forall i | 0 <= i < k ensures IsName(env, base, i, all[i]) {
      if i < k - 1 { assert IsName(env, base, i, names[i]); }
    }
  }

  /** The search finds a name whatever is taken, exactly for the bases that do
      not collide with one of their variants. */
  lemma SearchAlwaysSucceeds(env: Env, base: string)
    requires Standard(env) && IsClean(env, base)
    ensures (forall occupied: set<string> | |occupied| < USIZE_MAX :: Available(env, occupied, base).Some?)
            <==> (forall k | 2 <= k <= USIZE_MAX :: !Collides(base, k))
  {
    if forall k | 2 <= k <= USIZE_MAX :: !Collides(base, k) {
      forall occupied: set<string> | |occupied| < USIZE_MAX ensures Available(env, occupied, base).Some? {
        SearchSucceeds(env, occupied, base);
      }
    } else {
      var k :| 2 <= k <= USIZE_MAX && Collides(base, k);
      var occupied := SearchFails(env, base, k);
      assert |occupied| < USIZE_MAX && Available(env, occupied, base).None?;
    }
  }

  lemma {:induction false} FirstFreeIsFree(name: nat -> Option<string>, occupied: set<string>, k: nat, last: nat)
    requires FirstFree(name, occupied, k, last).Some?
    ensures var i := FirstFree(name, occupied, k, last).value; name(i).Some? && name(i).value !in occupied
    decreases last + 1 - k
  {
    if name(k).value in occupied { FirstFreeIsFree(name, occupied, k + 1, last); }
  }

  /** A found name is free. */
  lemma FoundIsFree(env: Env, occupied: set<string>, candidate: string)
    requires Available(env, occupied, candidate).Some?
    ensures var name := Available(env, occupied, candidate).value;
            Normalize(env, name).Some? && Normalize(env, name).value !in occupied
  {
    FirstFreeIsFree(NameOf(env, Clean(env, candidate).value), occupied, 1, |occupied| + 1);
  }

  /** The search as a loop over the suffixes. */
  method FindAvailable(env: Env, occupied: set<string>, candidate: string) returns (r: Option<string>)
    ensures r == Available(env, occupied, candidate)
  {
    var base := Clean(env, candidate);
    if base.None? { return None; }
    var name := NameOf(env, base.value);
    var suffix: nat := 1;
    while suffix <= |occupied| + 1
      invariant 1 <= suffix <= |occupied| + 2
      invariant FirstFree(name, occupied, 1, |occupied| + 1) == FirstFree(name, occupied, suffix, |occupied| + 1)
    {
      var normalized := name(suffix);
      if normalized.None? { return None; }
      if normalized.value !in occupied { return Some(Variant(base.value, suffix)); }
      suffix := suffix + 1;
    }
    return None;
  }
}
