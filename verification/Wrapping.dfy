/** Word wrapping of styled lines. Every row records how many logical units of
    its line it stands for, so that a reader who has shown n units can go on at
    the same place after the terminal was resized. */
module Wrapping {
  import opened Wrappers
  import opened StyledText

  const TAB_WIDTH: nat := 4

  function Min(a: nat, b: nat): nat { if a < b then a else b }

  function Max(a: nat, b: nat): nat { if a < b then b else a }

  function Width(atoms: seq<Atom>): nat {
    if atoms == [] then 0 else Width(atoms[..|atoms| - 1]) + atoms[|atoms| - 1].glyph.width
  }

  function Indent(n: nat): seq<Atom> {
    Spaces(n, DEFAULT_STYLE)
  }

  function Spaces(n: nat, style: Style): seq<Atom> {
    Styled(seq(n, _ => SPACE), style)
  }

  /** What a character adds at column `width`: line feeds vanish and tabs become
      spaces up to the next multiple of four. */
  function Expansion(atom: Atom, width: nat): seq<Atom> {
    if atom.glyph.ch == '\n' then []
    else if atom.glyph.ch == '\t' then Spaces(TAB_WIDTH - width % TAB_WIDTH, atom.style)
    else [atom]
  }

  function Expand(atoms: seq<Atom>): seq<Atom> {
    if atoms == [] then []
    else
      var front := Expand(atoms[..|atoms| - 1]);
      front + Expansion(atoms[|atoms| - 1], Width(front))
  }

  function AtomsOf(line: Line): seq<Atom> {
    Expand(Flatten(line.spans))
  }

  predicate IsCode(line: Line) {
    exists i | 0 <= i < |line.spans| :: line.spans[i].style.tone == CodeBlock
  }

  // ------------------------------------------------------------- where to cut

  function HardSplitFrom(atoms: seq<Atom>, columns: nat, index: nat, width: nat): nat
    requires index <= |atoms|
    decreases |atoms| - index
  {
    if index == |atoms| then index
    else
      var next := width + atoms[index].glyph.width;
      if index > 0 && next > columns then index else HardSplitFrom(atoms, columns, index + 1, next)
  }

  function HardSplit(atoms: seq<Atom>, columns: nat): nat {
    HardSplitFrom(atoms, columns, 0, 0)
  }

  /** Index of the last blank among the first `n` atoms. */
  function LastBlank(atoms: seq<Atom>, n: nat): Option<nat>
    requires n <= |atoms|
  {
    if n == 0 then None else if atoms[n - 1].glyph.blank then Some(n - 1) else LastBlank(atoms, n - 1)
  }

  function WordSplit(atoms: seq<Atom>, hardSplit: nat): nat
    requires hardSplit <= |atoms|
  {
    var last := LastBlank(atoms, hardSplit);
    if last.Some? && last.value > 0 then last.value else hardSplit
  }

  function TrimBlanks(atoms: seq<Atom>, start: nat, end: nat): nat
    requires start <= end <= |atoms|
  {
    if end > start && atoms[end - 1].glyph.blank then TrimBlanks(atoms, start, end - 1) else end
  }

  function SkipBlanks(atoms: seq<Atom>, from: nat): nat
    requires from <= |atoms|
    decreases |atoms| - from
  {
    if from < |atoms| && atoms[from].glyph.blank then SkipBlanks(atoms, from + 1) else from
  }

  lemma {:induction false} HardSplitFromSpec(atoms: seq<Atom>, columns: nat, index: nat, width: nat)
    requires index <= |atoms| && width == Width(atoms[..index])
    requires index <= 1 || width <= columns
    ensures var r := HardSplitFrom(atoms, columns, index, width);
            && index <= r <= |atoms|
            && (index == 0 && atoms != [] ==> r > 0)
            && (r <= 1 || Width(atoms[..r]) <= columns)
            && (r < |atoms| ==> r > 0 && Width(atoms[..r + 1]) > columns)
    decreases |atoms| - index
  {
    if index < |atoms| {
      assert atoms[..index + 1][..index] == atoms[..index];
      var next := width + atoms[index].glyph.width;
      if !(index > 0 && next > columns) { HardSplitFromSpec(atoms, columns, index + 1, next); }
    }
  }

  lemma HardSplitSpec(atoms: seq<Atom>, columns: nat)
    requires atoms != []
    ensures var r := HardSplit(atoms, columns);
            && 1 <= r <= |atoms|
            && (r == 1 || Width(atoms[..r]) <= columns)
            && (r < |atoms| ==> Width(atoms[..r + 1]) > columns)
  {
    assert atoms[..0] == [];
    HardSplitFromSpec(atoms, columns, 0, 0);
  }

  lemma {:induction false} LastBlankSpec(atoms: seq<Atom>, n: nat)
    requires n <= |atoms|
    ensures var r := LastBlank(atoms, n);
            && (r.Some?
              ==> r.value < n && atoms[r.value].glyph.blank && forall i | r.value < i < n :: !atoms[i].glyph.blank)
            && (r.None? ==> forall i | 0 <= i < n :: !atoms[i].glyph.blank)
  {
    if n > 0 && !atoms[n - 1].glyph.blank { LastBlankSpec(atoms, n - 1); }
  }

  lemma {:induction false} TrimBlanksSpec(atoms: seq<Atom>, start: nat, end: nat)
    requires start <= end <= |atoms|
    ensures var r := TrimBlanks(atoms, start, end);
            && start <= r <= end
            && (r > start ==> !atoms[r - 1].glyph.blank)
            && forall i | r <= i < end :: atoms[i].glyph.blank
  {
    if end > start && atoms[end - 1].glyph.blank { TrimBlanksSpec(atoms, start, end - 1); }
  }

  lemma {:induction false} SkipBlanksSpec(atoms: seq<Atom>, from: nat)
    requires from <= |atoms|
    ensures var r := SkipBlanks(atoms, from);
            && from <= r <= |atoms|
            && (r < |atoms| ==> !atoms[r].glyph.blank)
            && forall i | from <= i < r :: atoms[i].glyph.blank
    decreases |atoms| - from
  {
    if from < |atoms| && atoms[from].glyph.blank { SkipBlanksSpec(atoms, from + 1); }
  }

  // ---------------------------------------------------------------------- rows

  datatype Setting = Setting(columns: nat, code: bool, indent: nat)

  function Synthetic(setting: Setting, first: bool): nat {
    if first || setting.columns == 0 then 0 else Min(setting.indent, setting.columns - 1)
  }

  function Available(setting: Setting, first: bool): nat {
    Max(setting.columns - Synthetic(setting, first), 1)
  }

  /** One row of a line: atoms `[start..end)` are shown, `[start..next)` are counted. */
  datatype Cut = Cut(end: nat, next: nat, last: bool)

  /** Cut at the last blank of the `fit` atoms from `start`; blanks around the cut are not shown. */
  function WordCut(atoms: seq<Atom>, start: nat, fit: nat): (c: Cut)
    requires 0 < fit && start + fit < |atoms|
    ensures start <= c.end <= start + fit && start < c.next <= |atoms| && c.end <= c.next && !c.last
    ensures c.next == |atoms| ==> atoms[|atoms| - 1].glyph.blank
    ensures forall i | c.end <= i < c.next :: atoms[i].glyph.blank
    ensures c.next < |atoms| ==> !atoms[c.next].glyph.blank
  {
    var rest := atoms[start..];
    LastBlankSpec(rest, fit);
    var end := start + WordSplit(rest, fit);
    TrimBlanksSpec(atoms, start, end);
    SkipBlanksSpec(atoms, end);
    Cut(TrimBlanks(atoms, start, end), SkipBlanks(atoms, end), false)
  }

  function CutAt(atoms: seq<Atom>, start: nat, first: bool, setting: Setting): (c: Cut)
    requires start < |atoms|
    ensures start <= c.end <= c.next <= |atoms|
    ensures start < c.next
    ensures c.last ==> c.end == c.next == |atoms|
    ensures !c.last && c.next == |atoms| ==> atoms[|atoms| - 1].glyph.blank
    ensures setting.code ==> c.end == c.next
    ensures setting.code && !c.last ==> c.next < |atoms|
    ensures forall i | c.end <= i < c.next :: atoms[i].glyph.blank
    ensures !setting.code && c.next < |atoms| ==> !atoms[c.next].glyph.blank
  {
    var rest := atoms[start..];
    var fit := HardSplit(rest, Available(setting, first));
    HardSplitSpec(rest, Available(setting, first));
    if fit == |rest| then Cut(|atoms|, |atoms|, true)
    else if setting.code then Cut(start + fit, start + fit, false)
    else WordCut(atoms, start, fit)
  }

  /** Something that turns atoms into spans. */
  type Merger = seq<Atom> -> seq<Span>

  function RowOf(merge: Merger, atoms: seq<Atom>, hardBreak: bool, units: nat, synthetic: nat): Line {
    Line(merge(Indent(synthetic) + atoms), hardBreak, units, synthetic, 0)
  }

  function Rows(merge: Merger, atoms: seq<Atom>, start: nat, first: bool, setting: Setting): seq<Line>
    requires start <= |atoms|
    decreases |atoms| - start
  {
    if start == |atoms| then []
    else
      var c := CutAt(atoms, start, first, setting);
      [RowOf(merge, atoms[start..c.end], c.last, c.next - start, Synthetic(setting, first))]
        + Rows(merge, atoms, c.next, false, setting)
  }

  function SettingFor(line: Line, columns: nat): Setting {
    Setting(Max(columns, 1), IsCode(line), if IsCode(line) then 0 else line.continuationIndent)
  }

  function Wrap(line: Line, columns: nat): seq<Line> {
    var atoms := AtomsOf(line);
    if atoms == [] then [Line([], true, 0, 0, 0)]
    else Rows(Merge, atoms, 0, true, SettingFor(line, columns))
  }

  function WrapLines(lines: seq<Line>, columns: nat): seq<Line> {
    if lines == [] then [] else WrapLines(lines[..|lines| - 1], columns) + Wrap(lines[|lines| - 1], columns)
  }

  // ------------------------------------------------------------------ the methods

  lemma {:induction false} WidthConcat(a: seq<Atom>, b: seq<Atom>)
    ensures Width(a + b) == Width(a) + Width(b)
    decreases |b|
  {
    if b == [] {
      assert a + b == a;
    } else {
      var n := |b| - 1;
      WidthConcat(a, b[..n]);
      assert (a + b)[..|a + b| - 1] == a + b[..n];
    }
  }

  lemma {:induction false} SpacesWidth(n: nat, style: Style)
    ensures Width(Spaces(n, style)) == n
  {
    if n > 0 {
      SpacesWidth(n - 1, style);
      assert Spaces(n, style)[..n - 1] == Spaces(n - 1, style);
    }
  }

  function ExpansionSize(atom: Atom, width: nat): nat {
    if atom.glyph.ch == '\n' then 0
    else if atom.glyph.ch == '\t' then TAB_WIDTH - width % TAB_WIDTH
    else atom.glyph.width
  }

  lemma ExpansionWidth(atom: Atom, width: nat)
    ensures Width(Expansion(atom, width)) == ExpansionSize(atom, width)
  {
    if atom.glyph.ch == '\t' { SpacesWidth(TAB_WIDTH - width % TAB_WIDTH, atom.style); }
    assert [atom][..0] == [];
  }

  /** `atoms`, of `width` columns, is what `read` expands to. */
  ghost predicate Expanded(read: seq<Atom>, atoms: seq<Atom>, width: nat) {
    atoms == Expand(read) && width == Width(atoms)
  }

  lemma ExpandNext(read: seq<Atom>, atoms: seq<Atom>, width: nat, atom: Atom)
    requires Expanded(read, atoms, width)
    ensures Expanded(read + [atom], atoms + Expansion(atom, width), width + ExpansionSize(atom, width))
  {
    assert (read + [atom])[..|read|] == read;
    ExpansionWidth(atom, width);
    WidthConcat(atoms, Expansion(atom, width));
  }

  method ExpandChar(atoms: seq<Atom>, width: nat, atom: Atom, ghost read: seq<Atom>)
    returns (next: seq<Atom>, used: nat)
    requires Expanded(read, atoms, width)
    ensures Expanded(read + [atom], next, used)
  {
    ExpandNext(read, atoms, width, atom);
    next, used := atoms + Expansion(atom, width), width + ExpansionSize(atom, width);
  }

  lemma StyledNext(read: seq<Atom>, text: seq<Glyph>, style: Style, k: nat)
    requires k < |text|
    ensures read + Styled(text[..k], style) + [Atom(text[k], style)] == read + Styled(text[..k + 1], style)
  {
  }

  method ExpandSpan(atoms: seq<Atom>, width: nat, span: Span, ghost read: seq<Atom>)
    returns (next: seq<Atom>, used: nat)
    requires Expanded(read, atoms, width)
    ensures Expanded(read + Styled(span.text, span.style), next, used)
  {
    next, used := atoms, width;
    assert read + Styled(span.text[..0], span.style) == read;
    for k := 0 to |span.text|
      invariant Expanded(read + Styled(span.text[..k], span.style), next, used)
    {
      StyledNext(read, span.text, span.style, k);
      next, used := ExpandChar(next, used, Atom(span.text[k], span.style), read + Styled(span.text[..k], span.style));
    }
    assert span.text[..|span.text|] == span.text;
  }

  method ExpandSpans(spans: seq<Span>) returns (atoms: seq<Atom>)
    ensures atoms == Expand(Flatten(spans))
  {
    atoms := [];
    var width: nat := 0;
    for i := 0 to |spans|
      invariant atoms == Expand(Flatten(spans[..i])) && width == Width(atoms)
    {
      assert spans[..i + 1][..i] == spans[..i];
      atoms, width := ExpandSpan(atoms, width, spans[i], Flatten(spans[..i]));
    }
    assert spans[..|spans|] == spans;
  }

  method HardSplitAt(atoms: seq<Atom>, columns: nat) returns (r: nat)
    ensures r == HardSplit(atoms, columns)
  {
    var width: nat := 0;
    for index := 0 to |atoms|
      invariant HardSplit(atoms, columns) == HardSplitFrom(atoms, columns, index, width)
    {
      var next := width + atoms[index].glyph.width;
      if index > 0 && next > columns { return index; }
      width := next;
    }
    return |atoms|;
  }

  method WordSplitAt(atoms: seq<Atom>, hardSplit: nat) returns (r: nat)
    requires hardSplit <= |atoms|
    ensures r == WordSplit(atoms, hardSplit)
  {
    var i: nat := hardSplit;
    while i > 0 && !atoms[i - 1].glyph.blank
      invariant i <= hardSplit && LastBlank(atoms, i) == LastBlank(atoms, hardSplit)
    {
      i := i - 1;
    }
    r := if i > 1 then i - 1 else hardSplit;
  }

  method FindWordCut(atoms: seq<Atom>, start: nat, fit: nat) returns (c: Cut)
    requires 0 < fit && start + fit < |atoms|
    ensures c == WordCut(atoms, start, fit)
  {
    var split := WordSplitAt(atoms[start..], fit);
    LastBlankSpec(atoms[start..], fit);
    var end := start + split;
    var rowEnd, next := end, end;
    while rowEnd > start && atoms[rowEnd - 1].glyph.blank
      invariant start <= rowEnd <= end && TrimBlanks(atoms, start, rowEnd) == TrimBlanks(atoms, start, end)
    {
      rowEnd := rowEnd - 1;
    }
    while next < |atoms| && atoms[next].glyph.blank
      invariant end <= next <= |atoms| && SkipBlanks(atoms, next) == SkipBlanks(atoms, end)
    {
      next := next + 1;
    }
    return Cut(rowEnd, next, false);
  }

  method FindCut(atoms: seq<Atom>, start: nat, first: bool, setting: Setting) returns (c: Cut)
    requires start < |atoms|
    ensures c == CutAt(atoms, start, first, setting)
  {
    var remaining := atoms[start..];
    var hardSplit := HardSplitAt(remaining, Available(setting, first));
    HardSplitSpec(remaining, Available(setting, first));
    if hardSplit == |remaining| { return Cut(|atoms|, |atoms|, true); }
    if setting.code { return Cut(start + hardSplit, start + hardSplit, false); }
    c := FindWordCut(atoms, start, hardSplit);
  }

  method WrapRows(merge: Merger, atoms: seq<Atom>, setting: Setting) returns (rows: seq<Line>)
    ensures rows == Rows(merge, atoms, 0, true, setting)
  {
    rows := [];
    var start: nat, first := 0, true;
    while start < |atoms|
      invariant start <= |atoms|
      invariant rows + Rows(merge, atoms, start, first, setting) == Rows(merge, atoms, 0, true, setting)
    {
      var c := FindCut(atoms, start, first, setting);
      rows := rows + [RowOf(merge, atoms[start..c.end], c.last, c.next - start, Synthetic(setting, first))];
      start, first := c.next, false;
    }
  }

  method WrapLine(line: Line, columns: nat) returns (rows: seq<Line>)
    ensures rows == Wrap(line, columns)
  {
    var atoms := ExpandSpans(line.spans);
    if atoms == [] { return [Line([], true, 0, 0, 0)]; }
    rows := WrapRows(Merge, atoms, SettingFor(line, columns));
  }

  method WrapAll(lines: seq<Line>, columns: nat) returns (rows: seq<Line>)
    ensures rows == WrapLines(lines, columns)
  {
    rows := [];
    for i := 0 to |lines|
      invariant rows == WrapLines(lines[..i], columns)
    {
      var more := WrapLine(lines[i], columns);
      assert lines[..i + 1][..i] == lines[..i];
      rows := rows + more;
    }
    assert lines[..|lines|] == lines;
  }
}
