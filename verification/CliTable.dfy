/** Bordered tables for a terminal of a given width. */
module CliTable {
  import opened Wrappers

  /** Columns a character takes, and the control characters that are dropped. */
  datatype Env = Env(width: char -> nat, control: char -> bool)

  const ESC: char := '\U{1b}'
  const BAR: char := '\U{2502}'
  const DASH: char := '\U{2500}'

  /** No character is wider than two columns; blanks and box lines take one. */
  ghost predicate Standard(env: Env) {
    && (forall c :: env.width(c) <= 2)
    && env.width(' ') == 1 && env.width(BAR) == 1 && env.width(DASH) == 1
  }

  function Width(env: Env, s: string): nat {
    if s == [] then 0 else Width(env, s[..|s| - 1]) + env.width(s[|s| - 1])
  }

  lemma {:induction false} WidthConcat(env: Env, a: string, b: string)
    ensures Width(env, a + b) == Width(env, a) + Width(env, b)
    decreases |b|
  {
    if b == [] {
      assert a + b == a;
    } else {
      var n := |b| - 1;
      WidthConcat(env, a, b[..n]);
      assert (a + b)[..|a + b| - 1] == a + b[..n];
    }
  }

  // ------------------------------------------------------------------- cleaning

  /** What follows the final character of a control sequence. */
  function AfterSequence(s: string): (r: string)
    ensures |r| <= |s|
  {
    if s == [] then [] else if '@' <= s[0] <= '~' then s[1..] else AfterSequence(s[1..])
  }

  function StripSequences(s: string): string
    decreases |s|
  {
    if s == [] then []
    else if s[0] != ESC then [s[0]] + StripSequences(s[1..])
    else if |s| > 1 && s[1] == '[' then StripSequences(AfterSequence(s[2..]))
    else StripSequences(s[1..])
  }

  function Blanked(c: char): char { if c == '\n' || c == '\r' || c == '\t' then ' ' else c }

  function Printable(env: Env, s: string): string {
    if s == [] then []
    else (if env.control(Blanked(s[0])) then [] else [Blanked(s[0])]) + Printable(env, s[1..])
  }

  function Clean(env: Env, s: string): string { Printable(env, StripSequences(s)) }

  predicate Clear(env: Env, s: string) {
    forall i | 0 <= i < |s| :: s[i] != ESC && s[i] == Blanked(s[i]) && !env.control(s[i])
  }

  predicate NoEscape(s: string) { forall i | 0 <= i < |s| :: s[i] != ESC }

  lemma {:induction false} StrippedHasNone(s: string)
    ensures NoEscape(StripSequences(s))
    decreases |s|
  {
    if s != [] {
      if s[0] != ESC { StrippedHasNone(s[1..]); }
      else if |s| > 1 && s[1] == '[' { StrippedHasNone(AfterSequence(s[2..])); }
      else { StrippedHasNone(s[1..]); }
    }
  }

  lemma {:induction false} PrintableIsClear(env: Env, s: string)
    requires NoEscape(s)
    ensures Clear(env, Printable(env, s))
  {
    if s != [] { PrintableIsClear(env, s[1..]); }
  }

  lemma {:induction false} ClearStays(env: Env, s: string)
    requires Clear(env, s)
    ensures StripSequences(s) == s && Printable(env, s) == s
  {
    if s != [] {
      ClearStays(env, s[1..]);
      assert [s[0]] + s[1..] == s;
    }
  }

  /** Cleaning leaves nothing to clean. */
  lemma CleanTwice(env: Env, s: string)
    ensures Clear(env, Clean(env, s)) && Clean(env, Clean(env, s)) == Clean(env, s)
  {
    StrippedHasNone(s);
    PrintableIsClear(env, StripSequences(s));
    ClearStays(env, Clean(env, s));
  }

  // -------------------------------------------------------------------- wrapping

  function Concat(lines: seq<string>): string {
    if lines == [] then [] else Concat(lines[..|lines| - 1]) + lines[|lines| - 1]
  }

  /** Not empty, and not wider than the column unless one visible character is. */
  ghost predicate Fit(env: Env, chunk: string, width: nat) {
    chunk != [] && (Width(env, chunk) <= width || Width(env, chunk) == env.width(chunk[0]))
  }

  /** The next chunk could not have started one character later. */
  ghost predicate Full(env: Env, chunk: string, next: string, width: nat) {
    next != [] && Width(env, chunk) + env.width(next[0]) > width
  }

  /** Chunks that join to a text, each as long as it can be. */
  ghost predicate Chunked(env: Env, lines: seq<string>, text: string, width: nat) {
    && Concat(lines) == text
    && (forall k {:trigger Fit(env, lines[k], width)} | 0 <= k < |lines| :: Fit(env, lines[k], width))
    && (forall k {:trigger Full(env, lines[k - 1], lines[k], width)} | 0 < k < |lines| ::
      Full(env, lines[k - 1], lines[k], width))
  }

  function Flush(lines: seq<string>, line: string): seq<string> {
    if line != [] || lines == [] then lines + [line] else lines
  }

  /** Wraps the first n characters: finished lines and the line in progress. */
  function WrapPrefix(env: Env, s: string, width: nat, n: nat): (seq<string>, string)
    requires n <= |s|
  {
    if n == 0 then ([], [])
    else
      var (lines, line) := WrapPrefix(env, s, width, n - 1);
      if Width(env, line) + env.width(s[n - 1]) > width && line != [] then (lines + [line], [s[n - 1]])
      else (lines, line + [s[n - 1]])
  }

  function Wrap(env: Env, text: string, width: nat): seq<string> {
    var s := Clean(env, text);
    var (lines, line) := WrapPrefix(env, s, width, |s|);
    Flush(lines, line)
  }

  lemma ConcatNext(lines: seq<string>, line: string)
    ensures Concat(lines + [line]) == Concat(lines) + line
  {
  }

  lemma OneWide(env: Env, c: char)
    ensures Width(env, [c]) == env.width(c)
  {
  }

  lemma FirstChunk(env: Env, width: nat, c: char)
    ensures Chunked(env, [[c]], [c], width)
  {
    OneWide(env, c);
    ConcatNext([], [c]);
    assert [] + [[c]] == [[c]];
  }

  lemma ChunkGrows(env: Env, lines: seq<string>, line: string, text: string, width: nat, c: char)
    requires Chunked(env, lines + [line], text, width) && Width(env, line) + env.width(c) <= width
    ensures Chunked(env, lines + [line + [c]], text + [c], width)
  {
    var before, after := lines + [line], lines + [line + [c]];
    ConcatNext(lines, line);
    ConcatNext(lines, line + [c]);
    assert Fit(env, before[|lines|], width);
    OneWide(env, c);
    WidthConcat(env, line, [c]);
    forall k | 0 <= k < |after| ensures Fit(env, after[k], width) {
      if k < |lines| { assert Fit(env, before[k], width); }
    }
    forall k | 0 < k < |after| ensures Full(env, after[k - 1], after[k], width) {
      assert Full(env, before[k - 1], before[k], width);
    }
  }

  lemma ChunkStarts(env: Env, lines: seq<string>, text: string, width: nat, c: char)
    requires Chunked(env, lines, text, width) && lines != [] && Width(env, lines[|lines| - 1]) + env.width(c) > width
    ensures Chunked(env, lines + [[c]], text + [c], width)
  {
    var after := lines + [[c]];
    ConcatNext(lines, [c]);
    OneWide(env, c);
    forall k | 0 <= k < |after| ensures Fit(env, after[k], width) {
      if k < |lines| { assert Fit(env, lines[k], width); }
    }
    forall k | 0 < k < |after| ensures Full(env, after[k - 1], after[k], width) {
      if k < |lines| { assert Full(env, lines[k - 1], lines[k], width); }
    }
  }

  lemma {:induction false} WrapPartial(env: Env, s: string, width: nat, n: nat)
    requires 0 < n <= |s|
    ensures var (lines, line) := WrapPrefix(env, s, width, n); line != [] && Chunked(env, lines + [line], s[..n], width)
  {
    var c := s[n - 1];
    var (lines, line) := WrapPrefix(env, s, width, n - 1);
    assert s[..n - 1] + [c] == s[..n];
    if n == 1 {
      FirstChunk(env, width, c);
      assert s[..1] == [c] && [] + [[c]] == [[c]];
    } else {
      WrapPartial(env, s, width, n - 1);
      if Width(env, line) + env.width(c) > width {
        ChunkStarts(env, lines + [line], s[..n - 1], width, c);
      } else {
        ChunkGrows(env, lines, line, s[..n - 1], width, c);
      }
    }
  }

  /** The chunks of a cell join to its cleaned text; an empty text is one empty line. */
  lemma WrapChunks(env: Env, text: string, width: nat)
    ensures if Clean(env, text) == [] then Wrap(env, text, width) == [[]]
            else Wrap(env, text, width) != [] && Chunked(env, Wrap(env, text, width), Clean(env, text), width)
  {
    var s := Clean(env, text);
    if s != [] {
      WrapPartial(env, s, width, |s|);
      assert s[..|s|] == s;
    }
  }

  lemma WrapFits(env: Env, text: string, width: nat, k: nat)
    requires Standard(env) && width >= 2 && k < |Wrap(env, text, width)|
    ensures Width(env, Wrap(env, text, width)[k]) <= width
  {
    WrapChunks(env, text, width);
    var chunk := Wrap(env, text, width)[k];
    if chunk != [] {
      assert Fit(env, chunk, width);
      assert env.width(chunk[0]) <= 2;
    }
  }

  method WrapCell(env: Env, text: string, width: nat) returns (lines: seq<string>)
    ensures lines == Wrap(env, text, width)
  {
    var s := Clean(env, text);
    lines := [];
    var line: string := [];
    var used: nat := 0;
    for n := 0 to |s|
      invariant (lines, line) == WrapPrefix(env, s, width, n) && used == Width(env, line)
    {
      var w := env.width(s[n]);
      assert Width(env, [s[n]]) == w by { assert [s[n]][..0] == []; }
      if used + w > width && line != [] {
        lines, line, used := lines + [line], [s[n]], w;
      } else {
        WidthConcat(env, line, [s[n]]);
        line, used := line + [s[n]], used + w;
      }
    }
    if line != [] || lines == [] { lines := lines + [line]; }
  }
}
