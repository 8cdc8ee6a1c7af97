/** Column widths and the bordered lines of a table. */
module TableLayout {
  import opened Wrappers
  import opened CliTable

  // -------------------------------------------------------------- sharing the width

  function Sum(ws: seq<nat>): nat {
    if ws == [] then 0 else Sum(ws[..|ws| - 1]) + ws[|ws| - 1]
  }

  lemma {:induction false} SumUpdate(ws: seq<nat>, i: nat, w: nat)
    requires i < |ws|
    ensures Sum(ws[i := w]) == Sum(ws) - ws[i] + w
  {
    var n := |ws| - 1;
    if i == n {
      assert ws[i := w][..n] == ws[..n];
    } else {
      SumUpdate(ws[..n], i, w);
      assert ws[i := w][..n] == ws[..n][i := w];
    }
  }

  lemma {:induction false} SumAtLeast(ws: seq<nat>, k: nat)
    requires forall i | 0 <= i < |ws| :: ws[i] >= k
    ensures Sum(ws) >= k * |ws|
  {
    if ws != [] { SumAtLeast(ws[..|ws| - 1], k); }
  }

  lemma {:induction false} SumAtMost(ws: seq<nat>, k: nat)
    requires forall i | 0 <= i < |ws| :: ws[i] <= k
    ensures Sum(ws) <= k * |ws|
  {
    if ws != [] { SumAtMost(ws[..|ws| - 1], k); }
  }

  ghost predicate IsLastMax(ws: seq<nat>, i: nat) {
    && i < |ws|
    && (forall j | 0 <= j < |ws| :: ws[j] <= ws[i])
    && (forall j | i < j < |ws| :: ws[j] < ws[i])
  }

  /** The last of the widest columns. */
  function LastMax(ws: seq<nat>): (i: nat)
    requires ws != []
    ensures IsLastMax(ws, i)
  {
    if |ws| == 1 then 0
    else
      var front := LastMax(ws[..|ws| - 1]);
      if ws[|ws| - 1] >= ws[front] then |ws| - 1 else front
  }

  /** Takes one column from the widest until all fit or none is wider than two. */
  function Shrunk(ws: seq<nat>, budget: nat): seq<nat>
    requires ws != []
    decreases Sum(ws)
  {
    var i := LastMax(ws);
    if Sum(ws) <= budget || ws[i] <= 2 then ws
    else
      SumUpdate(ws, i, ws[i] - 1);
      Shrunk(ws[i := ws[i] - 1], budget)
  }

  /** No column grew or fell under two, and a column that was cut is at least as
      wide as every later one and within one of every earlier one. */
  ghost predicate Fair(natural: seq<nat>, ws: seq<nat>) {
    && |ws| == |natural|
    && (forall i | 0 <= i < |ws| :: 2 <= ws[i] <= natural[i])
    && (forall i, j | 0 <= i < |ws| && 0 <= j < |ws| :: ws[i] < natural[i] ==> ws[j] <= ws[i] + if j < i then 1 else 0)
  }

  lemma FairStep(natural: seq<nat>, ws: seq<nat>, i: nat)
    requires Fair(natural, ws) && IsLastMax(ws, i) && ws[i] > 2
    ensures Fair(natural, ws[i := ws[i] - 1])
  {
  }

  /** The total that is reached. */
  function Target(total: nat, n: nat, budget: nat): nat {
    if total <= budget then total else if budget < 2 * n then 2 * n else budget
  }

  lemma {:induction false} ShrunkSpec(natural: seq<nat>, ws: seq<nat>, budget: nat)
    requires ws != [] && Fair(natural, ws)
    ensures Fair(natural, Shrunk(ws, budget))
    ensures Sum(Shrunk(ws, budget)) == Target(Sum(ws), |ws|, budget)
    decreases Sum(ws)
  {
    var i := LastMax(ws);
    if Sum(ws) > budget {
      ShrunkNext(ws, budget, i);
      SumAtLeast(ws, 2);
      if ws[i] <= 2 {
        SumAtMost(ws, 2);
      } else {
        FairStep(natural, ws, i);
        SumAtLeast(ws[i := ws[i] - 1], 2);
        ShrunkSpec(natural, ws[i := ws[i] - 1], budget);
      }
    } else {
      ShrunkFits(ws, budget);
    }
  }

  lemma {:induction false} SumCompare(a: seq<nat>, b: seq<nat>)
    requires |a| == |b| && forall i | 0 <= i < |a| :: a[i] <= b[i]
    ensures Sum(a) <= Sum(b) && (Sum(a) == Sum(b) ==> a == b)
  {
    if a != [] {
      var n := |a| - 1;
      SumCompare(a[..n], b[..n]);
      if Sum(a) == Sum(b) { assert a[..n] + [a[n]] == a && b[..n] + [b[n]] == b; }
    }
  }

  /** Fairness and the total leave no choice. */
  lemma FairUnique(natural: seq<nat>, a: seq<nat>, b: seq<nat>)
    requires Fair(natural, a) && Fair(natural, b) && Sum(a) == Sum(b)
    ensures a == b
  {
    if forall i | 0 <= i < |a| :: a[i] <= b[i] {
      SumCompare(a, b);
    } else {
      assert forall i | 0 <= i < |a| :: b[i] <= a[i];
      SumCompare(b, a);
    }
  }

  lemma ShrunkNext(ws: seq<nat>, budget: nat, i: nat)
    requires ws != [] && i == LastMax(ws) && Sum(ws) > budget
    ensures ws[i] <= 2 ==> Shrunk(ws, budget) == ws
    ensures ws[i] > 2
            ==> Shrunk(ws, budget) == Shrunk(ws[i := ws[i] - 1], budget) && Sum(ws[i := ws[i] - 1]) == Sum(ws) - 1
  {
    if ws[i] > 2 { SumUpdate(ws, i, ws[i] - 1); }
  }

  lemma ShrunkFits(ws: seq<nat>, budget: nat)
    requires ws != [] && Sum(ws) <= budget
    ensures Shrunk(ws, budget) == ws
  {
  }

  /** The widths shrunk in place. */
  method Shrink(widths: array<nat>, budget: nat)
    requires widths.Length > 0
    modifies widths
    ensures widths[..] == Shrunk(old(widths[..]), budget)
  {
    ghost var start := widths[..];
    var total: nat := Total(widths);
    while total > budget
      invariant Shrinking(start, widths[..], budget, total)
      decreases total
    {
      var more := ShrinkOnce(widths, budget, total, start);
      if !more { return; }
      total := total - 1;
    }
    ShrunkFits(widths[..], budget);
  }

  method ShrinkOnce(widths: array<nat>, budget: nat, total: nat, ghost start: seq<nat>) returns (more: bool)
    requires total > budget && Shrinking(start, widths[..], budget, total)
    modifies widths
    ensures more ==> Shrinking(start, widths[..], budget, total - 1)
    ensures !more ==> Shrunk(start, budget) == widths[..]
  {
    var i := WidestColumn(widths);
    ShrinkingNext(start, widths[..], budget, total, i);
    more := widths[i] > 2;
    if more { TakeOne(widths, i); }
  }

  method TakeOne(widths: array<nat>, i: nat)
    requires i < widths.Length && widths[i] > 0
    modifies widths
    ensures widths[..] == old(widths[..])[i := old(widths[i]) - 1]
  {
    widths[i] := widths[i] - 1;
  }

  /** Shrinking these widths comes to the same as shrinking the first ones. */
  ghost predicate Shrinking(start: seq<nat>, ws: seq<nat>, budget: nat, total: nat) {
    start != [] && ws != [] && total == Sum(ws) && Shrunk(start, budget) == Shrunk(ws, budget)
  }

  lemma ShrinkingNext(start: seq<nat>, ws: seq<nat>, budget: nat, total: nat, i: nat)
    requires Shrinking(start, ws, budget, total) && total > budget && i == LastMax(ws)
    ensures ws[i] <= 2 ==> Shrunk(start, budget) == ws
    ensures ws[i] > 2 ==> total > 0 && Shrinking(start, ws[i := ws[i] - 1], budget, total - 1)
  {
    ShrunkNext(ws, budget, i);
  }

  method Total(widths: array<nat>) returns (total: nat)
    ensures total == Sum(widths[..])
  {
    total := 0;
    for i := 0 to widths.Length
      invariant total == Sum(widths[..i])
    {
      assert widths[..i + 1][..i] == widths[..i];
      total := total + widths[i];
    }
    assert widths[..widths.Length] == widths[..];
  }

  method WidestColumn(widths: array<nat>) returns (i: nat)
    requires widths.Length > 0
    ensures i < widths.Length && i == LastMax(widths[..])
  {
    i := 0;
    for j := 1 to widths.Length
      invariant IsLastMax(widths[..j], i)
    {
      if widths[j] >= widths[i] { i := j; }
    }
    assert widths[..widths.Length] == widths[..];
  }

  // --------------------------------------------------------------------------- lines

  /** The width of every line of a table with these columns. */
  function LineWidth(ws: seq<nat>): nat { Sum(ws) + 3 * |ws| + 1 }

  function Repeat(c: char, n: nat): string { if n == 0 then [] else Repeat(c, n - 1) + [c] }

  lemma {:induction false} RepeatWidth(env: Env, c: char, n: nat)
    requires env.width(c) == 1
    ensures Width(env, Repeat(c, n)) == n && |Repeat(c, n)| == n
  {
    if n > 0 { RepeatWidth(env, c, n - 1); }
  }

  function Cell(env: Env, value: string, width: nat): string {
    var pad := if Width(env, value) <= width then width - Width(env, value) else 0;
    [' '] + value + Repeat(' ', pad) + [' ', BAR]
  }

  /** How a cell is drawn in a column. */
  type Drawing = (string, nat) -> string

  function CellOf(env: Env): Drawing { (value: string, width: nat) => Cell(env, value, width) }

  /** The cells of one line; missing columns are simply absent. */
  function Cells(cell: Drawing, values: seq<string>, ws: seq<nat>): string
    requires |values| <= |ws|
  {
    if values == [] then []
    else
      var n := |values| - 1;
      Cells(cell, values[..n], ws) + cell(values[n], ws[n])
  }

  function Line(env: Env, values: seq<string>, ws: seq<nat>): string
    requires |values| <= |ws|
  {
    [BAR] + Cells(CellOf(env), values, ws)
  }

  lemma CellWidth(env: Env, value: string, width: nat)
    requires Standard(env) && Width(env, value) <= width
    ensures Width(env, Cell(env, value, width)) == width + 3
  {
    var pad := width - Width(env, value);
    RepeatWidth(env, ' ', pad);
    OneWide(env, ' ');
    OneWide(env, BAR);
    WidthConcat(env, [' '], value);
    WidthConcat(env, [' '] + value, Repeat(' ', pad));
    WidthConcat(env, [' '], [BAR]);
    assert [' '] + [BAR] == [' ', BAR];
    WidthConcat(env, [' '] + value + Repeat(' ', pad), [' ', BAR]);
  }

  /** A value that fits its column is drawn three columns wider. */
  ghost predicate Draws(env: Env, cell: Drawing) {
    forall value, width: nat {:trigger cell(value, width)} :: Width(env, value) <= width
      ==> Width(env, cell(value, width)) == width + 3
  }

  lemma {:induction false} CellsWidth(env: Env, cell: Drawing, values: seq<string>, ws: seq<nat>)
    requires Draws(env, cell) && |values| <= |ws| && forall i | 0 <= i < |values| :: Width(env, values[i]) <= ws[i]
    ensures Width(env, Cells(cell, values, ws)) == Sum(ws[..|values|]) + 3 * |values|
  {
    if values != [] {
      var n := |values| - 1;
      CellsWidth(env, cell, values[..n], ws);
      WidthConcat(env, Cells(cell, values[..n], ws), cell(values[n], ws[n]));
      assert ws[..|values|][..n] == ws[..n];
    }
  }

  lemma CellDraws(env: Env)
    requires Standard(env)
    ensures Draws(env, CellOf(env))
  {
    forall value, width: nat | Width(env, value) <= width ensures Width(env, CellOf(env)(value, width)) == width + 3 {
      CellWidth(env, value, width);
    }
  }

  /** A line is as wide as the columns it fills. */
  lemma LineHasWidth(env: Env, values: seq<string>, ws: seq<nat>)
    requires Standard(env) && |values| <= |ws| && forall i | 0 <= i < |values| :: Width(env, values[i]) <= ws[i]
    ensures Width(env, Line(env, values, ws)) == LineWidth(ws[..|values|])
  {
    CellDraws(env);
    CellsWidth(env, CellOf(env), values, ws);
    OneWide(env, BAR);
    WidthConcat(env, [BAR], Cells(CellOf(env), values, ws));
  }

  function Dashes(ws: seq<nat>, join: char): string {
    if ws == [] then []
    else if |ws| == 1 then Repeat(DASH, ws[0] + 2)
    else Dashes(ws[..|ws| - 1], join) + ([join] + Repeat(DASH, ws[|ws| - 1] + 2))
  }

  function Border(ws: seq<nat>, left: char, join: char, right: char): string {
    [left] + Dashes(ws, join) + [right]
  }

  lemma {:induction false} DashesWidth(env: Env, ws: seq<nat>, join: char)
    requires Standard(env) && env.width(join) == 1 && ws != []
    ensures Width(env, Dashes(ws, join)) == Sum(ws) + 3 * |ws| - 1
  {
    var n := |ws| - 1;
    RepeatWidth(env, DASH, ws[n] + 2);
    if n > 0 {
      DashesWidth(env, ws[..n], join);
      OneWide(env, join);
      WidthConcat(env, [join], Repeat(DASH, ws[n] + 2));
      WidthConcat(env, Dashes(ws[..n], join), [join] + Repeat(DASH, ws[n] + 2));
    } else {
      assert ws[..0] == [];
    }
  }

  /** A border is as wide as a full line. */
  lemma BorderHasWidth(env: Env, ws: seq<nat>, left: char, join: char, right: char)
    requires Standard(env) && env.width(left) == 1 && env.width(join) == 1 && env.width(right) == 1 && ws != []
    ensures Width(env, Border(ws, left, join, right)) == LineWidth(ws)
  {
    DashesWidth(env, ws, join);
    OneWide(env, left);
    OneWide(env, right);
    WidthConcat(env, [left], Dashes(ws, join));
    WidthConcat(env, [left] + Dashes(ws, join), [right]);
  }

  // ---------------------------------------------------------------------------- rows

  /** The chunks of the cells of one row. */
  function Chunks(env: Env, cells: seq<string>, ws: seq<nat>): seq<seq<string>>
    requires |cells| <= |ws|
  {
    seq(|cells|, i requires 0 <= i < |cells| => Wrap(env, cells[i], ws[i]))
  }

  function Height(chunks: seq<seq<string>>): nat {
    if chunks == [] then 1
    else if |chunks| == 1 then |chunks[0]|
    else
      var front := Height(chunks[..|chunks| - 1]);
      if |chunks[|chunks| - 1]| > front then |chunks[|chunks| - 1]| else front
  }

  /** What each cell shows on one line of its row. */
  function Slice(chunks: seq<seq<string>>, line: nat): seq<string> {
    seq(|chunks|, i requires 0 <= i < |chunks| => if line < |chunks[i]| then chunks[i][line] else [])
  }

  function RowLines(env: Env, chunks: seq<seq<string>>, ws: seq<nat>, n: nat): seq<string>
    requires |chunks| <= |ws|
  {
    seq(n, line requires 0 <= line < n => Line(env, Slice(chunks, line), ws))
  }

  function Row(env: Env, cells: seq<string>, ws: seq<nat>): seq<string>
    requires |cells| <= |ws|
  {
    RowLines(env, Chunks(env, cells, ws), ws, Height(Chunks(env, cells, ws)))
  }

  lemma SliceFits(env: Env, cells: seq<string>, ws: seq<nat>, line: nat, i: nat)
    requires Standard(env) && |cells| <= |ws| && i < |cells| && ws[i] >= 2
    ensures Width(env, Slice(Chunks(env, cells, ws), line)[i]) <= ws[i]
  {
    if line < |Wrap(env, cells[i], ws[i])| { WrapFits(env, cells[i], ws[i], line); }
  }

  /** All lines of a row are equally wide. */
  lemma RowWidth(env: Env, cells: seq<string>, ws: seq<nat>, k: nat)
    requires Standard(env) && |cells| <= |ws| && (forall i | 0 <= i < |ws| :: ws[i] >= 2) && k < |Row(env, cells, ws)|
    ensures Width(env, Row(env, cells, ws)[k]) == LineWidth(ws[..|cells|])
  {
    var chunks := Chunks(env, cells, ws);
    var values := Slice(chunks, k);
    forall i | 0 <= i < |values| ensures Width(env, values[i]) <= ws[i] {
      SliceFits(env, cells, ws, k, i);
    }
    LineHasWidth(env, values, ws);
  }

  lemma {:induction false} HeightCovers(chunks: seq<seq<string>>, i: nat)
    requires i < |chunks|
    ensures |chunks[i]| <= Height(chunks)
  {
    if i < |chunks| - 1 { HeightCovers(chunks[..|chunks| - 1], i); }
  }

  /** The k-th line of a row shows the k-th chunk of each cell, so no chunk is lost. */
  lemma RowShows(env: Env, cells: seq<string>, ws: seq<nat>, i: nat, k: nat)
    requires |cells| <= |ws| && i < |cells| && k < |Wrap(env, cells[i], ws[i])|
    ensures k < |Row(env, cells, ws)|
    ensures Row(env, cells, ws)[k] == Line(env, Slice(Chunks(env, cells, ws), k), ws)
    ensures Slice(Chunks(env, cells, ws), k)[i] == Wrap(env, cells[i], ws[i])[k]
  {
    var chunks := Chunks(env, cells, ws);
    HeightCovers(chunks, i);
  }

  // ------------------------------------------------------------------------ whole tables

  /** A bordered line, or a line of plain text. */
  datatype Output = Bordered(text: string) | Plain(text: string)

  function Boxed(lines: seq<string>): seq<Output> {
    seq(|lines|, i requires 0 <= i < |lines| => Bordered(lines[i]))
  }

  function AllRows(env: Env, rows: seq<seq<string>>, ws: seq<nat>): seq<string>
    requires forall r | 0 <= r < |rows| :: |rows[r]| <= |ws|
  {
    if rows == [] then [] else AllRows(env, rows[..|rows| - 1], ws) + Row(env, rows[|rows| - 1], ws)
  }

  /** The widest cleaned cell of a column, 1 when no row has one. */
  function WidestCell(env: Env, rows: seq<seq<string>>, i: nat): Option<nat> {
    if rows == [] then None
    else
      var row, front := rows[|rows| - 1], WidestCell(env, rows[..|rows| - 1], i);
      if i >= |row| then front
      else
        var w := Width(env, Clean(env, row[i]));
        if front.Some? && front.value > w then front else Some(w)
  }

  function Max(a: nat, b: nat): nat { if a < b then b else a }

  function NaturalWidth(env: Env, header: string, rows: seq<seq<string>>, i: nat): nat {
    var cell := WidestCell(env, rows, i);
    Max(Max(Width(env, header), if cell.Some? then cell.value else 1), 2)
  }

  function Natural(env: Env, headers: seq<string>, rows: seq<seq<string>>): seq<nat> {
    seq(|headers|, i requires 0 <= i < |headers| => NaturalWidth(env, headers[i], rows, i))
  }

  function Budget(width: nat, n: nat): nat { Max(if width > 3 * n + 1 then width - (3 * n + 1) else 0, n) }

  function Columns(env: Env, headers: seq<string>, rows: seq<seq<string>>, width: nat): seq<nat>
    requires headers != []
  {
    Shrunk(Natural(env, headers, rows), Budget(width, |headers|))
  }

  lemma ColumnsSpec(env: Env, headers: seq<string>, rows: seq<seq<string>>, width: nat)
    requires headers != []
    ensures Fair(Natural(env, headers, rows), Columns(env, headers, rows, width))
    ensures |Columns(env, headers, rows, width)| == |headers|
    ensures Sum(Columns(env, headers, rows, width))
            == Target(Sum(Natural(env, headers, rows)), |headers|, Budget(width, |headers|))
  {
    ShrunkSpec(Natural(env, headers, rows), Natural(env, headers, rows), Budget(width, |headers|));
  }

  /** A table fits the terminal exactly when the terminal has five columns a column and one more. */
  lemma ColumnsFit(env: Env, headers: seq<string>, rows: seq<seq<string>>, width: nat)
    requires headers != []
    ensures LineWidth(Columns(env, headers, rows, width)) <= width <==> width >= 5 * |headers| + 1
  {
    ColumnsSpec(env, headers, rows, width);
    SumAtLeast(Columns(env, headers, rows, width), 2);
  }

  const EMPTY: string := "Aucune entr\U{e9}e dans la port\U{e9}e demand\U{e9}e."
  const NO_RECORD: string := "Aucune entr\U{e9}e."

  function Direct(env: Env, headers: seq<string>, rows: seq<seq<string>>, width: nat): seq<Output>
    requires headers != [] && forall r | 0 <= r < |rows| :: |rows[r]| <= |headers|
  {
    ColumnsSpec(env, headers, rows, width);
    var ws := Columns(env, headers, rows, width);
    Boxed(Lines(env, headers, rows, ws))
    + if rows == [] then [Plain(EMPTY)] else []
  }

  ghost predicate BoxDrawing(env: Env) {
    && env.width('\U{256d}') == 1 && env.width('\U{252c}') == 1 && env.width('\U{256e}') == 1
    && env.width('\U{251c}') == 1 && env.width('\U{253c}') == 1 && env.width('\U{2524}') == 1
    && env.width('\U{2570}') == 1 && env.width('\U{2534}') == 1 && env.width('\U{256f}') == 1
  }

  /** No line is wider than `width`, and if `exact` all have that width. */
  ghost predicate AllWide(env: Env, lines: seq<string>, width: nat, exact: bool) {
    forall k | 0 <= k < |lines| :: Width(env, lines[k]) <= width && (exact ==> Width(env, lines[k]) == width)
  }

  lemma {:induction false} SumOfPrefix(ws: seq<nat>, n: nat)
    requires n <= |ws|
    ensures Sum(ws[..n]) <= Sum(ws)
  {
    if n < |ws| {
      SumOfPrefix(ws[..|ws| - 1], n);
      assert ws[..|ws| - 1][..n] == ws[..n];
    } else {
      assert ws[..n] == ws;
    }
  }

  lemma {:induction false} AllRowsWidth(env: Env, rows: seq<seq<string>>, ws: seq<nat>, exact: bool)
    requires Standard(env) && (forall i | 0 <= i < |ws| :: ws[i] >= 2)
    requires forall r | 0 <= r < |rows| :: |rows[r]| <= |ws| && (exact ==> |rows[r]| == |ws|)
    ensures AllWide(env, AllRows(env, rows, ws), LineWidth(ws), exact)
  {
    if rows != [] {
      var n := |rows| - 1;
      AllRowsWidth(env, rows[..n], ws, exact);
      OneRowWidth(env, rows[n], ws, exact);
    }
  }

  lemma OneRowWidth(env: Env, cells: seq<string>, ws: seq<nat>, exact: bool)
    requires Standard(env) && |cells| <= |ws| && (exact ==> |cells| == |ws|) && forall i | 0 <= i < |ws| :: ws[i] >= 2
    ensures AllWide(env, Row(env, cells, ws), LineWidth(ws), exact)
  {
    SumOfPrefix(ws, |cells|);
    if |cells| == |ws| { assert ws[..|cells|] == ws; }
    forall k | 0 <= k < |Row(env, cells, ws)| ensures Width(env, Row(env, cells, ws)[k]) == LineWidth(ws[..|cells|]) {
      RowWidth(env, cells, ws, k);
    }
  }

  /** The lines between and including the borders. */
  function Lines(env: Env, headers: seq<string>, rows: seq<seq<string>>, ws: seq<nat>): seq<string>
    requires |headers| == |ws| && forall r | 0 <= r < |rows| :: |rows[r]| <= |ws|
  {
    [Border(ws, '\U{256d}', '\U{252c}', '\U{256e}')] + Row(env, headers, ws)
    + [Border(ws, '\U{251c}', '\U{253c}', '\U{2524}')] + AllRows(env, rows, ws)
    + [Border(ws, '\U{2570}', '\U{2534}', '\U{256f}')]
  }

  lemma BorderIsWide(env: Env, ws: seq<nat>, left: char, join: char, right: char, exact: bool)
    requires Standard(env) && env.width(left) == 1 && env.width(join) == 1 && env.width(right) == 1 && ws != []
    ensures AllWide(env, [Border(ws, left, join, right)], LineWidth(ws), exact)
  {
    BorderHasWidth(env, ws, left, join, right);
  }

  ghost predicate FullRows(headers: seq<string>, rows: seq<seq<string>>) {
    forall r | 0 <= r < |rows| :: |rows[r]| == |headers|
  }

  lemma LinesWidth(env: Env, headers: seq<string>, rows: seq<seq<string>>, ws: seq<nat>)
    requires Standard(env) && BoxDrawing(env) && headers != [] && |headers| == |ws|
    requires (forall r | 0 <= r < |rows| :: |rows[r]| <= |ws|) && forall i | 0 <= i < |ws| :: ws[i] >= 2
    ensures AllWide(env, Lines(env, headers, rows, ws), LineWidth(ws), FullRows(headers, rows))
  {
    var w, full := LineWidth(ws), FullRows(headers, rows);
    BorderIsWide(env, ws, '\U{256d}', '\U{252c}', '\U{256e}', full);
    BorderIsWide(env, ws, '\U{251c}', '\U{253c}', '\U{2524}', full);
    BorderIsWide(env, ws, '\U{2570}', '\U{2534}', '\U{256f}', full);
    OneRowWidth(env, headers, ws, full);
    AllRowsWidth(env, rows, ws, full);
    FiveParts(env, [Border(ws, '\U{256d}', '\U{252c}', '\U{256e}')], Row(env, headers, ws),
              [Border(ws, '\U{251c}', '\U{253c}', '\U{2524}')], AllRows(env, rows, ws),
              [Border(ws, '\U{2570}', '\U{2534}', '\U{256f}')], w, full);
  }

  lemma FiveParts(
    env: Env, a: seq<string>, b: seq<string>, c: seq<string>, d: seq<string>, e: seq<string>, w: nat, exact: bool)
    requires AllWide(env, a, w, exact) && AllWide(env, b, w, exact) && AllWide(env, c, w, exact)
    requires AllWide(env, d, w, exact) && AllWide(env, e, w, exact)
    ensures AllWide(env, a + b + c + d + e, w, exact)
  {
  }

  /** No bordered line is wider than the columns together, and with full rows all
      have that width. */
  lemma DirectWidth(env: Env, headers: seq<string>, rows: seq<seq<string>>, width: nat, k: nat)
    requires Standard(env) && BoxDrawing(env) && headers != [] && forall r | 0 <= r < |rows| :: |rows[r]| <= |headers|
    requires k < |Direct(env, headers, rows, width)| && Direct(env, headers, rows, width)[k].Bordered?
    ensures var drawn := Width(env, Direct(env, headers, rows, width)[k].text);
            var w := LineWidth(Columns(env, headers, rows, width));
            drawn <= w && (FullRows(headers, rows) ==> drawn == w)
  {
    ColumnsSpec(env, headers, rows, width);
    var ws := Columns(env, headers, rows, width);
    LinesWidth(env, headers, rows, ws);
    BoxedWidth(env, Lines(env, headers, rows, ws), if rows == [] then [Plain(EMPTY)] else [], LineWidth(ws),
               FullRows(headers, rows), k);
  }

  lemma BoxedWidth(env: Env, lines: seq<string>, notes: seq<Output>, w: nat, exact: bool, k: nat)
    requires AllWide(env, lines, w, exact) && (forall i | 0 <= i < |notes| :: notes[i].Plain?)
    requires k < |Boxed(lines) + notes| && (Boxed(lines) + notes)[k].Bordered?
    ensures var drawn := Width(env, (Boxed(lines) + notes)[k].text);
            drawn <= w && (exact ==> drawn == w)
  {
  }

  /** The top border is as wide as the columns together. */
  lemma TopWidth(env: Env, headers: seq<string>, rows: seq<seq<string>>, width: nat)
    requires Standard(env) && BoxDrawing(env) && headers != [] && forall r | 0 <= r < |rows| :: |rows[r]| <= |headers|
    ensures var out := Direct(env, headers, rows, width);
            && out != [] && out[0].Bordered?
            && Width(env, out[0].text) == LineWidth(Columns(env, headers, rows, width))
  {
    ColumnsSpec(env, headers, rows, width);
    BorderHasWidth(env, Columns(env, headers, rows, width), '\U{256d}', '\U{252c}', '\U{256e}');
  }

  function Pairs(headers: seq<string>, row: seq<string>): seq<seq<string>> {
    var n := if |headers| < |row| then |headers| else |row|;
    seq(n, i requires 0 <= i < n => [headers[i], row[i]])
  }

  const RECORD_HEADERS: seq<string> := ["CHAMP", "VALEUR"]

  /** One row as a numbered name-and-value table. */
  function Record(env: Env, headers: seq<string>, row: seq<string>, number: nat, width: nat): seq<Output> {
    [Plain(Decimal(number))] + Direct(env, RECORD_HEADERS, Pairs(headers, row), width)
  }

  function Records(env: Env, headers: seq<string>, rows: seq<seq<string>>, width: nat): seq<Output> {
    if rows == [] then []
    else Records(env, headers, rows[..|rows| - 1], width) + Record(env, headers, rows[|rows| - 1], |rows|, width)
  }

  function Decimal(n: nat): string {
    if n < 10 then ['0' + n as char] else Decimal(n / 10) + ['0' + (n % 10) as char]
  }

  /** On a narrow terminal more than two columns become one name-and-value table a row. */
  function Table(env: Env, headers: seq<string>, rows: seq<seq<string>>, width: nat): seq<Output>
    requires forall r | 0 <= r < |rows| :: |rows[r]| <= |headers|
  {
    if headers == [] then []
    else if width < 5 * |headers| + 1 && |headers| > 2 then
      Records(env, headers, rows, width) + if rows == [] then [Plain(NO_RECORD)] else []
    else Direct(env, headers, rows, width)
  }

  ghost predicate Within(env: Env, out: seq<Output>, width: nat) {
    forall k | 0 <= k < |out| :: out[k].Bordered? ==> Width(env, out[k].text) <= width
  }

  lemma DirectWithin(env: Env, headers: seq<string>, rows: seq<seq<string>>, width: nat)
    requires Standard(env) && BoxDrawing(env) && headers != [] && forall r | 0 <= r < |rows| :: |rows[r]| <= |headers|
    ensures Within(env, Direct(env, headers, rows, width), width) <==> width >= 5 * |headers| + 1
  {
    var out := Direct(env, headers, rows, width);
    var w := LineWidth(Columns(env, headers, rows, width));
    ColumnsFit(env, headers, rows, width);
    forall k | 0 <= k < |out| && out[k].Bordered? ensures Width(env, out[k].text) <= w {
      DirectWidth(env, headers, rows, width, k);
    }
    TopWidth(env, headers, rows, width);
  }

  lemma RecordWithin(env: Env, headers: seq<string>, row: seq<string>, number: nat, width: nat)
    requires Standard(env) && BoxDrawing(env)
    ensures Within(env, Record(env, headers, row, number, width), width) <==> width >= 11
  {
    DirectWithin(env, RECORD_HEADERS, Pairs(headers, row), width);
    WithinConcat(env, [Plain(Decimal(number))], Direct(env, RECORD_HEADERS, Pairs(headers, row), width), width);
  }

  lemma {:induction false} RecordsWithin(env: Env, headers: seq<string>, rows: seq<seq<string>>, width: nat)
    requires Standard(env) && BoxDrawing(env)
    ensures Within(env, Records(env, headers, rows, width), width) <==> rows == [] || width >= 11
  {
    if rows != [] {
      var n := |rows| - 1;
      RecordsWithin(env, headers, rows[..n], width);
      RecordWithin(env, headers, rows[n], |rows|, width);
      WithinConcat(env, Records(env, headers, rows[..n], width), Record(env, headers, rows[n], |rows|, width), width);
    }
  }

  lemma WithinConcat(env: Env, a: seq<Output>, b: seq<Output>, width: nat)
    ensures Within(env, a + b, width) <==> Within(env, a, width) && Within(env, b, width)
  {
    var all := a + b;
    if Within(env, all, width) {
      forall k | 0 <= k < |a| && a[k].Bordered? ensures Width(env, a[k].text) <= width { assert all[k] == a[k]; }
      forall k | 0 <= k < |b| && b[k].Bordered? ensures Width(env, b[k].text) <= width { assert all[|a| + k] == b[k]; }
    }
  }

  /** No bordered line is wider than the terminal, exactly from 5n + 1 columns on
      for one or two columns and from 11 on for more. */
  lemma TableWithin(env: Env, headers: seq<string>, rows: seq<seq<string>>, width: nat)
    requires Standard(env) && BoxDrawing(env) && headers != [] && forall r | 0 <= r < |rows| :: |rows[r]| <= |headers|
    ensures Within(env, Table(env, headers, rows, width), width) <==>
            if |headers| <= 2 then width >= 5 * |headers| + 1 else rows == [] || width >= 11
  {
    if width < 5 * |headers| + 1 && |headers| > 2 {
      RecordsWithin(env, headers, rows, width);
      WithinConcat(env, Records(env, headers, rows, width), if rows == [] then [Plain(NO_RECORD)] else [], width);
    } else {
      DirectWithin(env, headers, rows, width);
    }
  }
}
