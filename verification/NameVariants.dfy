/** Display names: cleaning, folding for comparison, and the search for a free
    variant "name (2)", "name (3)", … of at most 80 characters. */
module NameVariants {
  import opened Wrappers

  const MAX_CHARS: nat := 80
  const USIZE_MAX: nat := 0xFFFF_FFFF_FFFF_FFFF

  /** White space, and the lower-case unaccented text of a character. */
  datatype Env = Env(blank: char -> bool, fold: char -> string)

  predicate Letter(c: char) { 'A' <= c <= 'Z' || 'a' <= c <= 'z' }

  predicate Fixed(c: char) { c == ' ' || c == '(' || c == ')' || '0' <= c <= '9' }

  /** Letters are not blank; digits, parentheses and the space fold to themselves, and nothing else folds to them. */
  ghost predicate Standard(env: Env) {
    && (forall c | Fixed(c) :: env.fold(c) == [c] && (env.blank(c) <==> c == ' '))
    && (forall c | Letter(c) :: !env.blank(c))
    && (forall c | !Fixed(c) :: env.fold(c) != [] && forall i | 0 <= i < |env.fold(c)| :: !Fixed(env.fold(c)[i]))
  }

  // ------------------------------------------------------------------ cleaning

  function Push(env: Env, acc: string, c: char): string {
    if !env.blank(c) then acc + [c]
    else if acc == [] || acc[|acc| - 1] == ' ' then acc
    else acc + [' ']
  }

  function Collapse(env: Env, s: string): string {
    if s == [] then [] else Push(env, Collapse(env, s[..|s| - 1]), s[|s| - 1])
  }

  function TrimEnd(s: string): string {
    if s != [] && s[|s| - 1] == ' ' then s[..|s| - 1] else s
  }

  /** Words separated by single spaces; refused when nothing or too much is left. */
  function Clean(env: Env, raw: string): Option<string> {
    var value := TrimEnd(Collapse(env, raw));
    if value == [] || |value| > MAX_CHARS then None else Some(value)
  }

  function Fold(env: Env, s: string): string {
    if s == [] then [] else Fold(env, s[..|s| - 1]) + env.fold(s[|s| - 1])
  }

  function Normalize(env: Env, raw: string): Option<string> {
    var value := Clean(env, raw);
    if value.None? then None else Some(Fold(env, value.value))
  }

  // ------------------------------------------------------------------ variants

  function Decimal(n: nat): string {
    if n < 10 then ['0' + n as char] else Decimal(n / 10) + ['0' + (n % 10) as char]
  }

  function Ending(k: nat): string { [' ', '('] + Decimal(k) + [')'] }

  function Prefix(base: string, k: nat): string {
    var room := if |Ending(k)| <= MAX_CHARS then MAX_CHARS - |Ending(k)| else 0;
    if |base| <= room then base else base[..room]
  }

  function Variant(base: string, k: nat): string {
    if k == 1 then base else Prefix(base, k) + Ending(k)
  }

  /** What the k-th variant is compared by. */
  function NameOf(env: Env, base: string): nat -> Option<string> {
    (k: nat) => Normalize(env, Variant(base, k))
  }

  /** The first of the k-th to the last name that is free; an invalid name ends the search. */
  function FirstFree(name: nat -> Option<string>, occupied: set<string>, k: nat, last: nat): Option<nat>
    decreases last + 1 - k
  {
    if k > last || name(k).None? then None
    else if name(k).value !in occupied then Some(k)
    else FirstFree(name, occupied, k + 1, last)
  }

  /** Tries one variant more than there are names. */
  function Available(env: Env, occupied: set<string>, candidate: string): Option<string> {
    var base := Clean(env, candidate);
    if base.None? then None
    else
      var k := FirstFree(NameOf(env, base.value), occupied, 1, |occupied| + 1);
      if k.None? then None else Some(Variant(base.value, k.value))
  }

  // ------------------------------------------------------------- cleaned strings

  /** No blank but single inner spaces, and possibly one at the end. */
  ghost predicate Neat(env: Env, s: string) {
    && (forall i | 0 <= i < |s| :: env.blank(s[i]) ==> s[i] == ' ')
    && (forall i | 0 <= i < |s| :: s[i] == ' ' ==> i > 0 && s[i - 1] != ' ')
  }

  lemma {:induction false} CollapseNeat(env: Env, s: string)
    requires Standard(env)
    ensures Neat(env, Collapse(env, s))
  {
    if s != [] {
      CollapseNeat(env, s[..|s| - 1]);
      assert Fixed(' ');
    }
  }

  lemma {:induction false} NeatCollapses(env: Env, s: string)
    requires Standard(env) && Neat(env, s)
    ensures Collapse(env, s) == s
  {
    if s != [] {
      var front := s[..|s| - 1];
      assert Neat(env, front);
      NeatCollapses(env, front);
      assert Fixed(' ');
      assert front + [s[|s| - 1]] == s;
    }
  }

  ghost predicate IsClean(env: Env, s: string) {
    Neat(env, s) && s != [] && s[|s| - 1] != ' ' && |s| <= MAX_CHARS
  }

  lemma CleanIsClean(env: Env, raw: string)
    requires Standard(env) && Clean(env, raw).Some?
    ensures IsClean(env, Clean(env, raw).value)
  {
    CollapseNeat(env, raw);
  }

  lemma CleanAgain(env: Env, s: string)
    requires Standard(env) && IsClean(env, s)
    ensures Clean(env, s) == Some(s)
  {
    NeatCollapses(env, s);
  }

  // ----------------------------------------------------------------- the endings

  predicate Digit(c: char) { '0' <= c <= '9' }

  lemma {:induction false} DecimalDigits(n: nat)
    ensures Decimal(n) != [] && forall i | 0 <= i < |Decimal(n)| :: Digit(Decimal(n)[i])
  {
    if n >= 10 { DecimalDigits(n / 10); }
  }

  lemma {:induction false} DecimalInjective(m: nat, n: nat)
    requires Decimal(m) == Decimal(n)
    ensures m == n
  {
    DecimalDigits(m / 10);
    DecimalDigits(n / 10);
    if m >= 10 && n >= 10 {
      assert Decimal(m)[..|Decimal(m)| - 1] == Decimal(m / 10) && Decimal(n)[..|Decimal(n)| - 1] == Decimal(n / 10);
      DecimalInjective(m / 10, n / 10);
    }
  }

  function Pow10(d: nat): nat { if d == 0 then 1 else 10 * Pow10(d - 1) }

  lemma {:induction false} DecimalShort(n: nat, d: nat)
    requires n < Pow10(d) && d > 0
    ensures |Decimal(n)| <= d
  {
    if n >= 10 { DecimalShort(n / 10, d - 1); }
  }

  lemma EndingShort(k: nat)
    requires k <= USIZE_MAX
    ensures 4 <= |Ending(k)| <= 23
  {
    DecimalDigits(k);
    assert Pow10(5) == 100_000 && Pow10(10) == 10_000_000_000 && Pow10(15) == 1_000_000_000_000_000;
    assert USIZE_MAX < Pow10(20);
    DecimalShort(k, 20);
  }

  /** An ending tells its number. */
  lemma EndingTells(a: string, k: nat, b: string, j: nat)
    requires a + Ending(k) == b + Ending(j)
    ensures k == j && a == b
  {
    var s := a + Ending(k);
    DecimalDigits(k);
    DecimalDigits(j);
    var n, m := |Decimal(k)|, |Decimal(j)|;
    assert s[|s| - 1 - n..|s| - 1] == Decimal(k) && s[|s| - 2 - n] == '(';
    assert s[|s| - 1 - m..|s| - 1] == Decimal(j) && s[|s| - 2 - m] == '(';
    assert n == m;
    DecimalInjective(k, j);
    assert a == s[..|a|] && b == s[..|b|];
  }

  // --------------------------------------------------------------------- folding

  lemma {:induction false} FoldConcat(env: Env, a: string, b: string)
    ensures Fold(env, a + b) == Fold(env, a) + Fold(env, b)
    decreases |b|
  {
    if b == [] {
      assert a + b == a;
    } else {
      var n := |b| - 1;
      FoldConcat(env, a, b[..n]);
      assert (a + b)[..|a + b| - 1] == a + b[..n];
    }
  }

  predicate AllFixed(s: string) { forall i | 0 <= i < |s| :: Fixed(s[i]) }

  lemma {:induction false} FoldFixed(env: Env, s: string)
    requires Standard(env) && AllFixed(s)
    ensures Fold(env, s) == s
  {
    if s != [] {
      FoldFixed(env, s[..|s| - 1]);
      assert s[..|s| - 1] + [s[|s| - 1]] == s;
    }
  }

  /** Only a text of fixed characters folds to one. */
  lemma {:induction false} FoldsToFixed(env: Env, s: string)
    requires Standard(env) && AllFixed(Fold(env, s))
    ensures Fold(env, s) == s
  {
    if s != [] {
      var front, c := s[..|s| - 1], s[|s| - 1];
      var f := Fold(env, front);
      assert Fold(env, s) == f + env.fold(c);
      assert AllFixed(f) by {
        forall i | 0 <= i < |f| ensures Fixed(f[i]) { assert Fold(env, s)[i] == f[i]; }
      }
      assert env.fold(c) != [];
      assert Fold(env, s)[|f|] == env.fold(c)[0];
      assert Fixed(c);
      FoldsToFixed(env, front);
      assert front + [c] == s;
    }
  }

  lemma EndingFixed(k: nat)
    ensures AllFixed(Ending(k))
  {
    DecimalDigits(k);
    forall i | 0 <= i < |Ending(k)| ensures Fixed(Ending(k)[i]) {
      if 2 <= i < 2 + |Decimal(k)| { assert Ending(k)[i] == Decimal(k)[i - 2]; }
    }
  }
}
