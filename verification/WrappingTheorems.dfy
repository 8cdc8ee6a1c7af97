/** What wrapping keeps: the text, the width of the terminal, and the place a
    reader has reached when the width changes. */
module WrappingTheorems {
  import opened Wrappers
  import opened StyledText
  import opened Wrapping

  // ------------------------------------------------------------ reading rows

  /** What a row shows, without its synthetic indent. */
  function Shown(row: Line): seq<Atom> {
    Drop(Flatten(row.spans), row.syntheticUnits)
  }

  function Text(rows: seq<Line>): seq<Atom> {
    if rows == [] then [] else Shown(rows[0]) + Text(rows[1..])
  }

  function NonBlank(atoms: seq<Atom>): seq<Atom> {
    if atoms == [] then []
    else NonBlank(atoms[..|atoms| - 1]) + if atoms[|atoms| - 1].glyph.blank then [] else [atoms[|atoms| - 1]]
  }

  lemma {:induction false} NonBlankConcat(a: seq<Atom>, b: seq<Atom>)
    ensures NonBlank(a + b) == NonBlank(a) + NonBlank(b)
    decreases |b|
  {
    if b == [] {
      assert a + b == a;
    } else {
      var n := |b| - 1;
      NonBlankConcat(a, b[..n]);
      assert (a + b)[..|a + b| - 1] == a + b[..n];
    }
  }

  lemma {:induction false} NonBlankOfBlanks(atoms: seq<Atom>)
    requires forall i | 0 <= i < |atoms| :: atoms[i].glyph.blank
    ensures NonBlank(atoms) == []
  {
    if atoms != [] { NonBlankOfBlanks(atoms[..|atoms| - 1]); }
  }

  lemma {:induction false} TextConcat(a: seq<Line>, b: seq<Line>)
    ensures Text(a + b) == Text(a) + Text(b)
  {
    if a == [] {
      assert a + b == b;
    } else {
      assert (a + b)[1..] == a[1..] + b && (a + b)[0] == a[0];
      calc {
        Text(a + b);
        Shown(a[0]) + Text(a[1..] + b);
        { TextConcat(a[1..], b); }
        Shown(a[0]) + (Text(a[1..]) + Text(b));
        Shown(a[0]) + Text(a[1..]) + Text(b);
        Text(a) + Text(b);
      }
    }
  }

  lemma TextFirst(row: Line, rows: seq<Line>)
    ensures Text([row] + rows) == Shown(row) + Text(rows)
  {
  }

  /** Merging shows the atoms, dropping shows all but the first. */
  ghost predicate Faithful(merge: Merger) {
    forall atoms {:trigger merge(atoms)} :: Flatten(merge(atoms)) == atoms
  }

  ghost predicate Drops(drop: Dropper) {
    forall spans, n: nat {:trigger drop(spans, n)} :: Flatten(drop(spans, n)) == Drop(Flatten(spans), n)
  }

  lemma MergeIsFaithful()
    ensures Faithful(Merge) && Drops(DropGlyphs)
  {
    forall atoms ensures Flatten(Merge(atoms)) == atoms { FlattenMerge(atoms); }
    forall spans, n: nat ensures Flatten(DropGlyphs(spans, n)) == Drop(Flatten(spans), n) {
      FlattenMerge(Drop(Flatten(spans), n));
    }
  }

  lemma RowShown(merge: Merger, atoms: seq<Atom>, hardBreak: bool, units: nat, synthetic: nat)
    requires Faithful(merge)
    ensures Shown(RowOf(merge, atoms, hardBreak, units, synthetic)) == atoms
  {
  }

  lemma NonBlankText(a: seq<Line>, b: seq<Line>)
    ensures NonBlank(Text(a + b)) == NonBlank(Text(a)) + NonBlank(Text(b))
  {
    TextConcat(a, b);
    NonBlankConcat(Text(a), Text(b));
  }

  // --------------------------------------------------------------- one line

  /** A line whose final break is never lost. */
  predicate Stable(line: Line) {
    var atoms := AtomsOf(line);
    IsCode(line) || atoms == [] || !atoms[|atoms| - 1].glyph.blank
  }

  lemma {:induction false} RowsUnits(merge: Merger, atoms: seq<Atom>, start: nat, first: bool, setting: Setting)
    requires start < |atoms| && (setting.code || !atoms[|atoms| - 1].glyph.blank)
    ensures VisibleUnits(Rows(merge, atoms, start, first, setting)) == |atoms| - start + 1
    decreases |atoms| - start
  {
    var c := CutAt(atoms, start, first, setting);
    var rows := Rows(merge, atoms, start, first, setting);
    assert rows[1..] == Rows(merge, atoms, c.next, false, setting);
    if !c.last { RowsUnits(merge, atoms, c.next, false, setting); }
  }

  /** The final break apart, the units of a line do not depend on the width. */
  lemma {:induction false} RowsCount(merge: Merger, atoms: seq<Atom>, start: nat, first: bool, setting: Setting)
    requires start <= |atoms|
    ensures |atoms| - start <= VisibleUnits(Rows(merge, atoms, start, first, setting)) <= |atoms| - start + 1
    decreases |atoms| - start
  {
    if start < |atoms| {
      var c := CutAt(atoms, start, first, setting);
      assert Rows(merge, atoms, start, first, setting)[1..] == Rows(merge, atoms, c.next, false, setting);
      RowsCount(merge, atoms, c.next, false, setting);
    }
  }

  /** Dropping a stretch of blanks keeps the other characters. */
  lemma SplitNonBlank(atoms: seq<Atom>, a: nat, b: nat, c: nat)
    requires a <= b <= c <= |atoms| && forall i | b <= i < c :: atoms[i].glyph.blank
    ensures NonBlank(atoms[a..]) == NonBlank(atoms[a..b]) + NonBlank(atoms[c..])
  {
    assert atoms[a..] == atoms[a..b] + (atoms[b..c] + atoms[c..]);
    NonBlankConcat(atoms[a..b], atoms[b..c] + atoms[c..]);
    NonBlankConcat(atoms[b..c], atoms[c..]);
    NonBlankOfBlanks(atoms[b..c]);
  }

  lemma WrapUnits(line: Line, columns: nat)
    ensures Stable(line) ==> VisibleUnits(Wrap(line, columns)) == |AtomsOf(line)| + 1
    ensures |AtomsOf(line)| <= VisibleUnits(Wrap(line, columns)) <= |AtomsOf(line)| + 1
  {
    var atoms := AtomsOf(line);
    if atoms != [] {
      RowsCount(Merge, atoms, 0, true, SettingFor(line, columns));
      if Stable(line) { RowsUnits(Merge, atoms, 0, true, SettingFor(line, columns)); }
    }
  }

  // ------------------------------------------------------------------- width

  /** Every row fits the terminal when every character fits the narrowest row. */
  lemma {:induction false} RowsFit(merge: Merger, atoms: seq<Atom>, start: nat, first: bool, setting: Setting, i: nat)
    requires Faithful(merge) && start <= |atoms| && setting.columns >= 1
    requires forall k | 0 <= k < |atoms| :: atoms[k].glyph.width <= Available(setting, false)
    requires i < |Rows(merge, atoms, start, first, setting)|
    ensures Width(Flatten(Rows(merge, atoms, start, first, setting)[i].spans)) <= setting.columns
    decreases |atoms| - start
  {
    var c := CutAt(atoms, start, first, setting);
    if i > 0 {
      RowsFit(merge, atoms, c.next, false, setting, i - 1);
    } else {
      var synthetic := Synthetic(setting, first);
      var shown := atoms[start..c.end];
      WidthConcat(Indent(synthetic), shown);
      SpacesWidth(synthetic, DEFAULT_STYLE);
      CutFits(atoms, start, first, setting);
    }
  }

  lemma CutFits(atoms: seq<Atom>, start: nat, first: bool, setting: Setting)
    requires start < |atoms| && setting.columns >= 1
    requires forall k | 0 <= k < |atoms| :: atoms[k].glyph.width <= Available(setting, false)
    ensures Width(atoms[start..CutAt(atoms, start, first, setting).end]) <= Available(setting, first)
  {
    var c := CutAt(atoms, start, first, setting);
    var rest := atoms[start..];
    var fit := HardSplit(rest, Available(setting, first));
    HardSplitSpec(rest, Available(setting, first));
    LastBlankSpec(rest, fit);
    if !setting.code && !c.last { TrimBlanksSpec(atoms, start, start + WordSplit(rest, fit)); }
    assert c.end - start <= fit;
    assert atoms[start..c.end] == rest[..c.end - start];
    PrefixWidth(rest, c.end - start, fit);
    if fit == 1 {
      assert rest[..1] == [rest[0]] && Width([rest[0]]) == rest[0].glyph.width;
    }
  }

  lemma PrefixWidth(atoms: seq<Atom>, a: nat, b: nat)
    requires a <= b <= |atoms|
    ensures Width(atoms[..a]) <= Width(atoms[..b])
  {
    assert atoms[..b] == atoms[..a] + atoms[a..b];
    WidthConcat(atoms[..a], atoms[a..b]);
  }

  lemma WrapFits(line: Line, columns: nat, i: nat)
    requires forall k | 0 <= k < |AtomsOf(line)| ::
            AtomsOf(line)[k].glyph.width <= Available(SettingFor(line, columns), false)
    requires i < |Wrap(line, columns)|
    ensures Width(Flatten(Wrap(line, columns)[i].spans)) <= Max(columns, 1)
  {
    MergeIsFaithful();
    if AtomsOf(line) != [] { RowsFit(Merge, AtomsOf(line), 0, true, SettingFor(line, columns), i); }
  }

  // ----------------------------------------------------- the place of the reader

  /** What is shown of a row after n units, and what follows the row. */
  lemma CutTail(atoms: seq<Atom>, start: nat, end: nat, next: nat, n: nat)
    requires start <= end <= next <= |atoms| && forall i | end <= i < next :: atoms[i].glyph.blank
    requires start + n <= next
    ensures NonBlank(Drop(atoms[start..end], n)) + NonBlank(Drop(atoms, next)) == NonBlank(Drop(atoms, start + n))
  {
    var from := start + n;
    var to := if from <= end then end else from;
    DroppedSlice(atoms, start, end, n);
    SplitNonBlank(atoms, from, to, next);
  }

  lemma DroppedSlice(atoms: seq<Atom>, start: nat, end: nat, n: nat)
    requires start <= end <= |atoms| && start + n <= |atoms|
    ensures Drop(atoms[start..end], n) == atoms[start + n..if start + n <= end then end else start + n]
  {
  }

  lemma JoinTail(row: Line, rows: seq<Line>)
    ensures NonBlank(Text([row] + rows)) == NonBlank(Shown(row)) + NonBlank(Text(rows))
  {
    TextFirst(row, rows);
    NonBlankConcat(Shown(row), Text(rows));
  }

  /** The units of `row` are the atoms `[start..next)`, of which it shows `[start..end)`. */
  ghost predicate Covers(drop: Dropper, row: Line, atoms: seq<Atom>, start: nat, end: nat, next: nat) {
    && start <= end <= next <= |atoms|
    && (forall i | end <= i < next :: atoms[i].glyph.blank)
    && Shown(row) == atoms[start..end]
    && Units(row) == next - start + (if row.hardBreak then 1 else 0)
    && (row.hardBreak ==> next == |atoms|)
    && Trims(drop, row, atoms[start..end])
  }

  /** Trimming n units leaves what the row shows after the n-th. */
  ghost predicate Trims(drop: Dropper, row: Line, shown: seq<Atom>) {
    forall n: nat | n < Units(row) :: Shown(TrimWith(drop, row, n).value) == Drop(shown, n)
  }

  lemma RowTail(drop: Dropper, row: Line, rest: seq<Line>, atoms: seq<Atom>, start: nat, end: nat, next: nat, n: nat)
    requires Covers(drop, row, atoms, start, end, next) && n < Units(row)
    requires TailKept(drop, rest, atoms, next, 0)
    ensures TailKept(drop, [row] + rest, atoms, start, n)
  {
    calc {
      NonBlank(Text(SkipWith(drop, [row] + rest, n)));
      { SkipFirst(drop, row, rest, n); }
      NonBlank(Text([TrimWith(drop, row, n).value] + SkipWith(drop, rest, 0)));
      { JoinTail(TrimWith(drop, row, n).value, SkipWith(drop, rest, 0)); }
      NonBlank(Drop(atoms[start..end], n)) + NonBlank(Drop(atoms, next));
      { CutTail(atoms, start, end, next, n); }
      NonBlank(Drop(atoms, start + n));
    }
  }

  lemma RowTrims(merge: Merger, drop: Dropper, shown: seq<Atom>, hardBreak: bool, units: nat, synthetic: nat)
    requires Faithful(merge) && Drops(drop)
    ensures Trims(drop, RowOf(merge, shown, hardBreak, units, synthetic), shown)
  {
  }

  lemma RowCovers(drop: Dropper, row: Line, atoms: seq<Atom>, c: Cut, start: nat)
    requires start <= c.end <= c.next <= |atoms| && row.hardBreak == c.last && row.sourceUnits == c.next - start
    requires Trims(drop, row, atoms[start..c.end]) && Shown(row) == atoms[start..c.end]
    requires forall i | c.end <= i < c.next :: atoms[i].glyph.blank
    requires c.last ==> c.next == |atoms|
    ensures Covers(drop, row, atoms, start, c.end, c.next)
  {
  }

  /** `rows` stand one after the other for the atoms from `start` on; rows of
      code show all they stand for. */
  ghost predicate Laid(drop: Dropper, rows: seq<Line>, atoms: seq<Atom>, start: nat, code: bool)
    decreases rows
  {
    if rows == [] then start == |atoms|
    else exists end: nat, next: nat ::
      Covers(drop, rows[0], atoms, start, end, next) && (code ==> end == next)
        && Laid(drop, rows[1..], atoms, next, code)
  }

  lemma FirstRow(merge: Merger, drop: Dropper, atoms: seq<Atom>, start: nat, first: bool, setting: Setting)
    returns (row: Line, end: nat, next: nat)
    requires Faithful(merge) && Drops(drop) && start < |atoms|
    ensures start < next <= |atoms| && (setting.code ==> end == next)
    ensures Rows(merge, atoms, start, first, setting) == [row] + Rows(merge, atoms, next, false, setting)
    ensures Covers(drop, row, atoms, start, end, next)
  {
    var c := CutAt(atoms, start, first, setting);
    row := CutRow(merge, drop, atoms, start, c, Synthetic(setting, first));
    end, next := c.end, c.next;
    RowsFirst(merge, atoms, start, first, setting, row);
  }

  lemma RowsFirst(merge: Merger, atoms: seq<Atom>, start: nat, first: bool, setting: Setting, row: Line)
    requires start < |atoms|
    requires var c := CutAt(atoms, start, first, setting);
             row == RowOf(merge, atoms[start..c.end], c.last, c.next - start, Synthetic(setting, first))
    ensures Rows(merge, atoms, start, first, setting)
            == [row] + Rows(merge, atoms, CutAt(atoms, start, first, setting).next, false, setting)
  {
  }

  lemma CutRow(merge: Merger, drop: Dropper, atoms: seq<Atom>, start: nat, c: Cut, synthetic: nat) returns (row: Line)
    requires Faithful(merge) && Drops(drop) && start <= c.end <= c.next <= |atoms|
    requires forall i | c.end <= i < c.next :: atoms[i].glyph.blank
    requires c.last ==> c.next == |atoms|
    ensures row == RowOf(merge, atoms[start..c.end], c.last, c.next - start, synthetic)
    ensures Covers(drop, row, atoms, start, c.end, c.next)
  {
    var shown := atoms[start..c.end];
    row := RowOf(merge, shown, c.last, c.next - start, synthetic);
    RowShown(merge, shown, c.last, c.next - start, synthetic);
    RowTrims(merge, drop, shown, c.last, c.next - start, synthetic);
    RowCovers(drop, row, atoms, c, start);
  }

  lemma {:induction false} RowsLaid(
    merge: Merger, drop: Dropper, atoms: seq<Atom>, start: nat, first: bool, setting: Setting)
    requires Faithful(merge) && Drops(drop) && start <= |atoms|
    ensures Laid(drop, Rows(merge, atoms, start, first, setting), atoms, start, setting.code)
    decreases |atoms| - start
  {
    if start < |atoms| {
      var row, end, next := FirstRow(merge, drop, atoms, start, first, setting);
      RowsLaid(merge, drop, atoms, next, false, setting);
      LaidNext(drop, row, Rows(merge, atoms, next, false, setting), atoms, start, end, next, setting.code);
    }
  }

  lemma LaidNext(
    drop: Dropper, row: Line, rest: seq<Line>, atoms: seq<Atom>, start: nat, end: nat, next: nat, code: bool)
    requires Covers(drop, row, atoms, start, end, next) && (code ==> end == next) && Laid(drop, rest, atoms, next, code)
    ensures Laid(drop, [row] + rest, atoms, start, code)
  {
    var rows := [row] + rest;
    assert rows[1..] == rest;
    assert Covers(drop, rows[0], atoms, start, end, next);
  }

  lemma DropAll(atoms: seq<Atom>, n: nat)
    requires n >= |atoms|
    ensures Drop(atoms, n) == [] && NonBlank(Drop(atoms, n)) == []
  {
  }

  /** Skipping n units of these rows leaves the characters after the n-th. */
  ghost predicate TailKept(drop: Dropper, rows: seq<Line>, atoms: seq<Atom>, start: nat, n: nat) {
    NonBlank(Text(SkipWith(drop, rows, n))) == NonBlank(Drop(atoms, start + n))
  }

  lemma RowPassed(drop: Dropper, row: Line, rest: seq<Line>, atoms: seq<Atom>, start: nat, end: nat, next: nat, n: nat)
    requires Covers(drop, row, atoms, start, end, next) && n >= Units(row)
    requires TailKept(drop, rest, atoms, next, n - Units(row))
    ensures TailKept(drop, [row] + rest, atoms, start, n)
  {
    SkipFirst(drop, row, rest, n);
    if row.hardBreak {
      DropAll(atoms, start + n);
      DropAll(atoms, next + (n - Units(row)));
    }
  }

  lemma RowKeepsTail(
    drop: Dropper, row: Line, rest: seq<Line>, atoms: seq<Atom>, start: nat, end: nat, next: nat, n: nat)
    requires Covers(drop, row, atoms, start, end, next)
    requires forall k: nat :: TailKept(drop, rest, atoms, next, k)
    ensures TailKept(drop, [row] + rest, atoms, start, n)
  {
    if n >= Units(row) {
      RowPassed(drop, row, rest, atoms, start, end, next, n);
    } else {
      RowTail(drop, row, rest, atoms, start, end, next, n);
    }
  }

  lemma {:induction false} LaidTail(drop: Dropper, rows: seq<Line>, atoms: seq<Atom>, start: nat, code: bool, n: nat)
    requires Laid(drop, rows, atoms, start, code)
    ensures TailKept(drop, rows, atoms, start, n)
    decreases rows
  {
    if rows == [] {
      DropAll(atoms, start + n);
    } else {
      var end: nat, next: nat :| Covers(drop, rows[0], atoms, start, end, next)
        && Laid(drop, rows[1..], atoms, next, code);
      forall k: nat ensures TailKept(drop, rows[1..], atoms, next, k) {
        LaidTail(drop, rows[1..], atoms, next, code, k);
      }
      RowKeepsTail(drop, rows[0], rows[1..], atoms, start, end, next, n);
      assert [rows[0]] + rows[1..] == rows;
    }
  }

  lemma RowsTail(merge: Merger, drop: Dropper, atoms: seq<Atom>, setting: Setting, n: nat)
    requires Faithful(merge) && Drops(drop)
    ensures TailKept(drop, Rows(merge, atoms, 0, true, setting), atoms, 0, n)
  {
    RowsLaid(merge, drop, atoms, 0, true, setting);
    LaidTail(drop, Rows(merge, atoms, 0, true, setting), atoms, 0, setting.code, n);
  }

  lemma {:induction false} LaidText(drop: Dropper, rows: seq<Line>, atoms: seq<Atom>, start: nat, code: bool)
    requires start <= |atoms| && Laid(drop, rows, atoms, start, code)
    ensures NonBlank(Text(rows)) == NonBlank(atoms[start..])
    decreases rows
  {
    if rows != [] {
      var end: nat, next: nat :| Covers(drop, rows[0], atoms, start, end, next) && (code ==> end == next)
        && Laid(drop, rows[1..], atoms, next, code);
      LaidText(drop, rows[1..], atoms, next, code);
      JoinTail(rows[0], rows[1..]);
      assert [rows[0]] + rows[1..] == rows;
      SplitNonBlank(atoms, start, end, next);
    }
  }

  lemma CodeJoin(row: Line, rest: seq<Line>, atoms: seq<Atom>, start: nat, next: nat)
    requires start <= next <= |atoms| && Shown(row) == atoms[start..next] && Text(rest) == atoms[next..]
    ensures Text([row] + rest) == atoms[start..]
  {
  }

  lemma {:induction false} LaidCode(drop: Dropper, rows: seq<Line>, atoms: seq<Atom>, start: nat)
    requires start <= |atoms| && Laid(drop, rows, atoms, start, true)
    ensures Text(rows) == atoms[start..]
    decreases rows
  {
    if rows != [] {
      var end: nat, next: nat :| Covers(drop, rows[0], atoms, start, end, next) && end == next
        && Laid(drop, rows[1..], atoms, next, true);
      LaidCode(drop, rows[1..], atoms, next);
      CodeJoin(rows[0], rows[1..], atoms, start, next);
      assert [rows[0]] + rows[1..] == rows;
    }
  }

  /** Wrapping keeps the non-blank characters of a line with their styles, and
      every character of a code line. */
  lemma WrapKeepsText(line: Line, columns: nat)
    ensures NonBlank(Text(Wrap(line, columns))) == NonBlank(AtomsOf(line))
    ensures IsCode(line) ==> Text(Wrap(line, columns)) == AtomsOf(line)
  {
    var atoms := AtomsOf(line);
    if atoms == [] {
      assert Text([Line([], true, 0, 0, 0)]) == [];
    } else {
      var rows := Rows(Merge, atoms, 0, true, SettingFor(line, columns));
      MergeIsFaithful();
      RowsLaid(Merge, DropGlyphs, atoms, 0, true, SettingFor(line, columns));
      assert atoms[0..] == atoms;
      LaidText(DropGlyphs, rows, atoms, 0, IsCode(line));
      if IsCode(line) { LaidCode(DropGlyphs, rows, atoms, 0); }
    }
  }

  /** The logical text of a document: its characters with a mark after each line. */
  function Marks(lines: seq<Line>): seq<Option<Atom>> {
    if lines == [] then []
    else Marks(lines[..|lines| - 1]) + MarksOf(lines[|lines| - 1])
  }

  function MarksOf(line: Line): seq<Option<Atom>> { Marked(AtomsOf(line)) + [None] }

  function Marked(atoms: seq<Atom>): (r: seq<Option<Atom>>)
    ensures |r| == |atoms|
  {
    seq(|atoms|, i requires 0 <= i < |atoms| => Some(atoms[i]))
  }

  function Letters(marks: seq<Option<Atom>>): seq<Atom> {
    if marks == [] then []
    else Letters(marks[..|marks| - 1]) + Letter(marks[|marks| - 1])
  }

  function From(marks: seq<Option<Atom>>, n: nat): seq<Option<Atom>> {
    if n <= |marks| then marks[n..] else []
  }

  function Letter(mark: Option<Atom>): seq<Atom> {
    if mark.Some? && !mark.value.glyph.blank then [mark.value] else []
  }

  lemma {:induction false} LettersConcat(a: seq<Option<Atom>>, b: seq<Option<Atom>>)
    ensures Letters(a + b) == Letters(a) + Letters(b)
    decreases |b|
  {
    if b == [] {
      assert a + b == a;
    } else {
      var n := |b| - 1;
      calc {
        Letters(a + b);
        { assert (a + b)[..|a + b| - 1] == a + b[..n]; }
        Letters(a + b[..n]) + Letter(b[n]);
        { LettersConcat(a, b[..n]); }
        (Letters(a) + Letters(b[..n])) + Letter(b[n]);
        Letters(a) + (Letters(b[..n]) + Letter(b[n]));
        Letters(a) + Letters(b);
      }
    }
  }

  lemma LettersSplit(m: seq<Option<Atom>>, k: seq<Option<Atom>>, n: nat)
    requires n <= |m|
    ensures Letters(From(m + k, n)) == Letters(From(m, n)) + Letters(From(k, 0))
  {
    assert From(m + k, n) == From(m, n) + From(k, 0);
    LettersConcat(From(m, n), From(k, 0));
  }

  lemma {:induction false} LettersOfMarked(atoms: seq<Atom>)
    ensures Letters(Marked(atoms)) == NonBlank(atoms)
  {
    if atoms != [] {
      LettersOfMarked(atoms[..|atoms| - 1]);
      assert Marked(atoms)[..|atoms| - 1] == Marked(atoms[..|atoms| - 1]);
    }
  }

  lemma LettersOfLine(atoms: seq<Atom>, n: nat)
    ensures Letters(From(Marked(atoms) + [None], n)) == NonBlank(Drop(atoms, n))
  {
    var marks := Marked(atoms) + [None];
    if n <= |atoms| {
      assert marks[n..] == Marked(atoms[n..]) + [None];
      LettersConcat(Marked(atoms[n..]), [None]);
      LettersOfMarked(atoms[n..]);
      assert Letters([None]) == [];
    } else {
      assert From(marks, n) == [];
    }
  }

  /** Skipping n units of these rows leaves the letters after the n-th mark. */
  ghost predicate ReadsAt(drop: Dropper, rows: seq<Line>, marks: seq<Option<Atom>>, n: nat) {
    NonBlank(Text(SkipWith(drop, rows, n))) == Letters(From(marks, n))
  }

  lemma BlankRow(drop: Dropper, n: nat)
    ensures NonBlank(Text(SkipWith(drop, [Line([], true, 0, 0, 0)], n))) == []
  {
  }

  lemma LineTail(line: Line, columns: nat, n: nat)
    requires Stable(line)
    ensures ReadsAt(DropGlyphs, Wrap(line, columns), MarksOf(line), n)
  {
    var atoms := AtomsOf(line);
    LettersOfLine(atoms, n);
    if atoms == [] {
      BlankRow(DropGlyphs, n);
    } else {
      MergeIsFaithful();
      RowsTail(Merge, DropGlyphs, atoms, SettingFor(line, columns), n);
    }
  }

  lemma {:induction false} UnitsConcat(a: seq<Line>, b: seq<Line>)
    ensures VisibleUnits(a + b) == VisibleUnits(a) + VisibleUnits(b)
  {
    if a == [] {
      assert a + b == b;
    } else {
      UnitsConcat(a[1..], b);
      assert (a + b)[1..] == a[1..] + b;
    }
  }

  lemma ReadsBehind(drop: Dropper, a: seq<Line>, b: seq<Line>, m: seq<Option<Atom>>, k: seq<Option<Atom>>, n: nat)
    requires VisibleUnits(a) == |m| <= n && ReadsAt(drop, b, k, n - |m|)
    ensures ReadsAt(drop, a + b, m + k, n)
  {
    FromBehind(m, k, n);
    SkipConcat(drop, a, b, n);
  }

  lemma FromBehind(m: seq<Option<Atom>>, k: seq<Option<Atom>>, n: nat)
    requires |m| <= n
    ensures From(m + k, n) == From(k, n - |m|)
  {
  }

  lemma ReadsAcross(drop: Dropper, a: seq<Line>, b: seq<Line>, m: seq<Option<Atom>>, k: seq<Option<Atom>>, n: nat)
    requires VisibleUnits(a) == |m| > n && ReadsAt(drop, a, m, n) && ReadsAt(drop, b, k, 0)
    ensures ReadsAt(drop, a + b, m + k, n)
  {
    calc {
      NonBlank(Text(SkipWith(drop, a + b, n)));
      { SkipConcat(drop, a, b, n); }
      NonBlank(Text(SkipWith(drop, a, n) + SkipWith(drop, b, 0)));
      { NonBlankText(SkipWith(drop, a, n), SkipWith(drop, b, 0)); }
      NonBlank(Text(SkipWith(drop, a, n))) + NonBlank(Text(SkipWith(drop, b, 0)));
      Letters(From(m, n)) + Letters(From(k, 0));
      { LettersSplit(m, k, n); }
      Letters(From(m + k, n));
    }
  }

  /** These rows can be read from every place as these marks can. */
  ghost predicate Reads(drop: Dropper, rows: seq<Line>, marks: seq<Option<Atom>>) {
    VisibleUnits(rows) == |marks| && forall n: nat :: ReadsAt(drop, rows, marks, n)
  }

  lemma ReadsConcat(drop: Dropper, a: seq<Line>, b: seq<Line>, m: seq<Option<Atom>>, k: seq<Option<Atom>>)
    requires Reads(drop, a, m) && Reads(drop, b, k)
    ensures Reads(drop, a + b, m + k)
  {
    UnitsConcat(a, b);
    forall n: nat ensures ReadsAt(drop, a + b, m + k, n) {
      if n >= |m| { ReadsBehind(drop, a, b, m, k, n); } else { ReadsAcross(drop, a, b, m, k, n); }
    }
  }

  lemma LineReads(line: Line, columns: nat)
    requires Stable(line)
    ensures Reads(DropGlyphs, Wrap(line, columns), MarksOf(line))
  {
    WrapUnits(line, columns);
    forall n: nat ensures ReadsAt(DropGlyphs, Wrap(line, columns), MarksOf(line), n) {
      LineTail(line, columns, n);
    }
  }

  lemma {:induction false} DocumentReads(lines: seq<Line>, columns: nat)
    requires forall i | 0 <= i < |lines| :: Stable(lines[i])
    ensures Reads(DropGlyphs, WrapLines(lines, columns), Marks(lines))
  {
    if lines != [] {
      var front, last := lines[..|lines| - 1], lines[|lines| - 1];
      DocumentReads(front, columns);
      LineReads(last, columns);
      ReadsConcat(DropGlyphs, WrapLines(front, columns), Wrap(last, columns), Marks(front), MarksOf(last));
    }
  }

  /** Wherever the reader stands, what is left to show is the same text at every width. */
  lemma ReaderKeepsPlace(lines: seq<Line>, columns: nat, n: nat)
    requires forall i | 0 <= i < |lines| :: Stable(lines[i])
    ensures VisibleUnits(WrapLines(lines, columns)) == |Marks(lines)|
    ensures NonBlank(Text(Skip(WrapLines(lines, columns), n))) == Letters(From(Marks(lines), n))
  {
    DocumentReads(lines, columns);
    assert ReadsAt(DropGlyphs, WrapLines(lines, columns), Marks(lines), n);
  }

  /** Resizing the terminal moves neither the end of the document nor the place
      of a reader in it. */
  lemma ResizeKeepsPlace(lines: seq<Line>, before: nat, after: nat, n: nat)
    requires forall i | 0 <= i < |lines| :: Stable(lines[i])
    ensures VisibleUnits(WrapLines(lines, before)) == VisibleUnits(WrapLines(lines, after))
    ensures NonBlank(Text(Skip(WrapLines(lines, before), n))) == NonBlank(Text(Skip(WrapLines(lines, after), n)))
  {
    ReaderKeepsPlace(lines, before, n);
    ReaderKeepsPlace(lines, after, n);
  }

  // ------------------------------------------------ when the final break is lost

  lemma {:induction false} WidthAtLeast(atoms: seq<Atom>)
    requires forall i | 0 <= i < |atoms| :: atoms[i].glyph.width >= 1
    ensures Width(atoms) >= |atoms|
  {
    if atoms != [] { WidthAtLeast(atoms[..|atoms| - 1]); }
  }

  lemma NarrowCut(atoms: seq<Atom>, start: nat, first: bool, setting: Setting)
    requires setting.columns == 1 && start < |atoms| - 1
    requires forall i | 0 <= i < |atoms| :: atoms[i].glyph.width >= 1
    ensures !CutAt(atoms, start, first, setting).last
  {
    var rest := atoms[start..];
    HardSplitSpec(rest, 1);
    WidthAtLeast(rest[..HardSplit(rest, 1)]);
  }

  /** On one column, a line that ends in a blank loses its final break. */
  lemma {:induction false} BreakLost(merge: Merger, atoms: seq<Atom>, start: nat, first: bool, setting: Setting)
    requires setting.columns == 1 && !setting.code && start < |atoms| - 1 && atoms[|atoms| - 1].glyph.blank
    requires forall i | 0 <= i < |atoms| :: atoms[i].glyph.width >= 1
    ensures VisibleUnits(Rows(merge, atoms, start, first, setting)) == |atoms| - start
    decreases |atoms| - start
  {
    NarrowCut(atoms, start, first, setting);
    var c := CutAt(atoms, start, first, setting);
    assert Rows(merge, atoms, start, first, setting)[1..] == Rows(merge, atoms, c.next, false, setting);
    if c.next < |atoms| { BreakLost(merge, atoms, c.next, false, setting); }
  }

  lemma SingleAtomFits(line: Line, columns: nat)
    requires |AtomsOf(line)| == 1
    ensures VisibleUnits(Wrap(line, columns)) == 2
  {
    var atoms, setting := AtomsOf(line), SettingFor(line, columns);
    HardSplitSpec(atoms, Available(setting, true));
    assert atoms[0..] == atoms;
    assert CutAt(atoms, 0, true, setting).last;
    assert Rows(Merge, atoms, 0, true, setting)[1..] == [];
  }

  /** For characters that take room, the units of a line are the same at every
      width exactly when the line is code, is empty, does not end in a blank, or
      is a single character. */
  lemma UnitsIndependentOfWidth(line: Line)
    requires forall i | 0 <= i < |AtomsOf(line)| :: AtomsOf(line)[i].glyph.width >= 1
    ensures (forall columns: nat :: VisibleUnits(Wrap(line, columns)) == |AtomsOf(line)| + 1)
            <==> (Stable(line) || |AtomsOf(line)| == 1)
  {
    if Stable(line) || |AtomsOf(line)| == 1 {
      forall columns: nat ensures VisibleUnits(Wrap(line, columns)) == |AtomsOf(line)| + 1 {
        WrapUnits(line, columns);
        if |AtomsOf(line)| == 1 { SingleAtomFits(line, columns); }
      }
    } else {
      BreakLost(Merge, AtomsOf(line), 0, true, SettingFor(line, 1));
      assert VisibleUnits(Wrap(line, 1)) == |AtomsOf(line)|;
    }
  }
}
