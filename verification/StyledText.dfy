/** Styled lines of the terminal view: spans that merge by style, the count of
    logical units a row stands for, and the removal of a logical prefix. */
module StyledText {
  import opened Wrappers

  /** A character with what the Unicode tables say of it. */
  datatype Glyph = Glyph(ch: char, width: nat, blank: bool)

  const SPACE := Glyph(' ', 1, true)

  datatype Tone = Plain | Heading | InlineCode | CodeBlock | Quote | Agent

  datatype Style = Style(tone: Tone, strong: bool, emphasis: bool)

  const DEFAULT_STYLE := Style(Plain, false, false)

  datatype Atom = Atom(glyph: Glyph, style: Style)

  datatype Span = Span(text: seq<Glyph>, style: Style)

  datatype Line = Line(
    spans: seq<Span>,
    hardBreak: bool,
    sourceUnits: nat,
    syntheticUnits: nat,
    continuationIndent: nat)

  // ----------------------------------------------------------------- spans

  function Styled(text: seq<Glyph>, style: Style): (r: seq<Atom>)
    ensures |r| == |text|
  {
    seq(|text|, i requires 0 <= i < |text| => Atom(text[i], style))
  }

  function Flatten(spans: seq<Span>): seq<Atom> {
    if spans == [] then []
    else Flatten(spans[..|spans| - 1]) + Styled(spans[|spans| - 1].text, spans[|spans| - 1].style)
  }

  function Push(spans: seq<Span>, text: seq<Glyph>, style: Style): seq<Span> {
    if text == [] then spans
    else if spans != [] && spans[|spans| - 1].style == style then
      spans[..|spans| - 1] + [Span(spans[|spans| - 1].text + text, style)]
    else spans + [Span(text, style)]
  }

  /** The canonical spans of a text: one span for each run of a style. */
  function Merge(atoms: seq<Atom>): seq<Span> {
    if atoms == [] then []
    else Push(Merge(atoms[..|atoms| - 1]), [atoms[|atoms| - 1].glyph], atoms[|atoms| - 1].style)
  }

  lemma FlattenPush(spans: seq<Span>, text: seq<Glyph>, style: Style)
    ensures Flatten(Push(spans, text, style)) == Flatten(spans) + Styled(text, style)
  {
    if text != [] {
      var n := |spans| - 1;
      if spans != [] && spans[n].style == style {
        assert Push(spans, text, style)[..n] == spans[..n];
        assert Styled(spans[n].text + text, style) == Styled(spans[n].text, style) + Styled(text, style);
      } else {
        assert Push(spans, text, style)[..|spans|] == spans;
      }
    }
  }

  lemma {:induction false} FlattenMerge(atoms: seq<Atom>)
    ensures Flatten(Merge(atoms)) == atoms
  {
    if atoms != [] {
      var front, last := atoms[..|atoms| - 1], atoms[|atoms| - 1];
      FlattenMerge(front);
      FlattenPush(Merge(front), [last.glyph], last.style);
      assert Styled([last.glyph], last.style) == [last];
      assert front + [last] == atoms;
    }
  }

  lemma MergeLast(atoms: seq<Atom>, last: Atom)
    ensures Merge(atoms + [last]) == Push(Merge(atoms), [last.glyph], last.style)
  {
    assert (atoms + [last])[..|atoms|] == atoms;
  }

  lemma PushPush(spans: seq<Span>, text: seq<Glyph>, last: Glyph, style: Style)
    ensures Push(Push(spans, text, style), [last], style) == Push(spans, text + [last], style)
  {
    if text == [] {
      assert text + [last] == [last];
    } else {
      var once := Push(spans, text, style);
      var n := |spans| - 1;
      if spans != [] && spans[n].style == style {
        assert once[..n] == spans[..n];
        assert spans[n].text + text + [last] == spans[n].text + (text + [last]);
      } else {
        assert once[..|spans|] == spans;
      }
    }
  }

  /** Pushing a text at once or character by character is the same. */
  lemma {:induction false} PushIsMerge(atoms: seq<Atom>, text: seq<Glyph>, style: Style)
    ensures Push(Merge(atoms), text, style) == Merge(atoms + Styled(text, style))
    decreases |text|
  {
    if text == [] {
      assert atoms + Styled(text, style) == atoms;
    } else {
      var front, last := text[..|text| - 1], text[|text| - 1];
      var most := atoms + Styled(front, style);
      assert front + [last] == text;
      calc {
        Merge(atoms + Styled(text, style));
        { assert atoms + Styled(text, style) == most + [Atom(last, style)]; }
        Merge(most + [Atom(last, style)]);
        { MergeLast(most, Atom(last, style)); }
        Push(Merge(most), [last], style);
        { PushIsMerge(atoms, front, style); }
        Push(Push(Merge(atoms), front, style), [last], style);
        { PushPush(Merge(atoms), front, last, style); }
        Push(Merge(atoms), text, style);
      }
    }
  }

  // --------------------------------------------------------------- logical units

  function Units(line: Line): nat {
    line.sourceUnits + if line.hardBreak then 1 else 0
  }

  function VisibleUnits(lines: seq<Line>): nat {
    if lines == [] then 0 else Units(lines[0]) + VisibleUnits(lines[1..])
  }

  function Drop(atoms: seq<Atom>, n: nat): seq<Atom> {
    if n <= |atoms| then atoms[n..] else []
  }

  function DropGlyphs(spans: seq<Span>, n: nat): seq<Span> {
    Merge(Drop(Flatten(spans), n))
  }

  /** Something that removes glyphs from the front of spans. */
  type Dropper = (seq<Span>, nat) -> seq<Span>

  /** A row without its first `units` logical units: the synthetic indent goes
      with the first of them, and skipped blanks have no glyph to remove. */
  function TrimWith(drop: Dropper, line: Line, units: nat): Option<Line> {
    if units >= Units(line) then None
    else if units == 0 then Some(line)
    else Some(Line(drop(line.spans, units + line.syntheticUnits), line.hardBreak, line.sourceUnits - units, 0, 0))
  }

  function SkipWith(drop: Dropper, lines: seq<Line>, units: nat): seq<Line>
    decreases lines
  {
    if lines == [] then []
    else if units >= Units(lines[0]) then SkipWith(drop, lines[1..], units - Units(lines[0]))
    else [TrimWith(drop, lines[0], units).value] + SkipWith(drop, lines[1..], 0)
  }

  function Trim(line: Line, units: nat): Option<Line> { TrimWith(DropGlyphs, line, units) }

  function Skip(lines: seq<Line>, units: nat): seq<Line> { SkipWith(DropGlyphs, lines, units) }

  lemma DropDrop(atoms: seq<Atom>, a: nat, b: nat)
    ensures Drop(Drop(atoms, a), b) == Drop(atoms, a + b)
  {
  }

  lemma DropGlyphsTwice(spans: seq<Span>, a: nat, b: nat)
    ensures DropGlyphs(DropGlyphs(spans, a), b) == DropGlyphs(spans, a + b)
  {
    var atoms := Flatten(spans);
    calc {
      DropGlyphs(DropGlyphs(spans, a), b);
      Merge(Drop(Flatten(Merge(Drop(atoms, a))), b));
      { FlattenMerge(Drop(atoms, a)); }
      Merge(Drop(Drop(atoms, a), b));
      { DropDrop(atoms, a, b); }
      Merge(Drop(atoms, a + b));
    }
  }

  ghost predicate Composes(drop: Dropper) {
    forall spans, a: nat, b: nat {:trigger drop(drop(spans, a), b)} :: drop(drop(spans, a), b) == drop(spans, a + b)
  }

  lemma DropComposes()
    ensures Composes(DropGlyphs)
  {
    forall spans, a: nat, b: nat ensures DropGlyphs(DropGlyphs(spans, a), b) == DropGlyphs(spans, a + b) {
      DropGlyphsTwice(spans, a, b);
    }
  }

  lemma TrimTrim(drop: Dropper, line: Line, a: nat, b: nat)
    requires Composes(drop) && a + b < Units(line)
    ensures TrimWith(drop, TrimWith(drop, line, a).value, b) == TrimWith(drop, line, a + b)
  {
    assert (a + line.syntheticUnits) + b == (a + b) + line.syntheticUnits;
  }

  lemma {:induction false} SkipUnitsWith(drop: Dropper, lines: seq<Line>, units: nat)
    ensures VisibleUnits(SkipWith(drop, lines, units))
            == if units <= VisibleUnits(lines) then VisibleUnits(lines) - units else 0
    decreases lines
  {
    if lines != [] {
      if units >= Units(lines[0]) {
        SkipUnitsWith(drop, lines[1..], units - Units(lines[0]));
      } else {
        SkipUnitsWith(drop, lines[1..], 0);
        assert SkipWith(drop, lines, units)[1..] == SkipWith(drop, lines[1..], 0);
      }
    }
  }

  /** Skipping removes exactly the units asked for, as far as there are any. */
  lemma SkipUnits(lines: seq<Line>, units: nat)
    ensures VisibleUnits(Skip(lines, units)) == if units <= VisibleUnits(lines) then VisibleUnits(lines) - units else 0
  {
    SkipUnitsWith(DropGlyphs, lines, units);
  }

  lemma SkipFirst(drop: Dropper, head: Line, tail: seq<Line>, units: nat)
    ensures SkipWith(drop, [head] + tail, units) ==
            if units >= Units(head) then SkipWith(drop, tail, units - Units(head))
            else [TrimWith(drop, head, units).value] + SkipWith(drop, tail, 0)
  {
    assert ([head] + tail)[1..] == tail;
  }

  lemma {:induction false} SkipSkipWith(drop: Dropper, lines: seq<Line>, a: nat, b: nat)
    requires Composes(drop)
    ensures SkipWith(drop, SkipWith(drop, lines, a), b) == SkipWith(drop, lines, a + b)
    decreases lines
  {
    if lines != [] {
      var head, tail := lines[0], lines[1..];
      if a >= Units(head) {
        SkipSkipWith(drop, tail, a - Units(head), b);
      } else {
        var trimmed := TrimWith(drop, head, a).value;
        SkipFirst(drop, trimmed, SkipWith(drop, tail, 0), b);
        if a + b >= Units(head) {
          SkipSkipWith(drop, tail, 0, a + b - Units(head));
        } else {
          calc {
            SkipWith(drop, SkipWith(drop, lines, a), b);
            SkipWith(drop, [trimmed] + SkipWith(drop, tail, 0), b);
            [TrimWith(drop, trimmed, b).value] + SkipWith(drop, SkipWith(drop, tail, 0), 0);
            { TrimTrim(drop, head, a, b); SkipSkipWith(drop, tail, 0, 0); }
            [TrimWith(drop, head, a + b).value] + SkipWith(drop, tail, 0);
            SkipWith(drop, lines, a + b);
          }
        }
      }
    }
  }

  /** Skipping twice is skipping the sum. */
  lemma SkipSkip(lines: seq<Line>, a: nat, b: nat)
    ensures Skip(Skip(lines, a), b) == Skip(lines, a + b)
  {
    DropComposes();
    SkipSkipWith(DropGlyphs, lines, a, b);
  }

  /** Rows that stand for nothing never survive. */
  lemma {:induction false} SkippedHaveUnits(drop: Dropper, lines: seq<Line>, units: nat)
    ensures forall i | 0 <= i < |SkipWith(drop, lines, units)| :: Units(SkipWith(drop, lines, units)[i]) > 0
    ensures VisibleUnits(SkipWith(drop, lines, units)) == 0 ==> SkipWith(drop, lines, units) == []
    decreases lines
  {
    if lines != [] {
      if units >= Units(lines[0]) {
        SkippedHaveUnits(drop, lines[1..], units - Units(lines[0]));
      } else {
        SkippedHaveUnits(drop, lines[1..], 0);
      }
    }
  }

  lemma {:induction false} SkipConcat(drop: Dropper, a: seq<Line>, b: seq<Line>, units: nat)
    ensures SkipWith(drop, a + b, units) ==
            if units >= VisibleUnits(a) then SkipWith(drop, b, units - VisibleUnits(a))
            else SkipWith(drop, a, units) + SkipWith(drop, b, 0)
    decreases a
  {
    if a == [] {
      assert a + b == b;
    } else {
      assert (a + b)[1..] == a[1..] + b;
      if units >= Units(a[0]) {
        SkipConcat(drop, a[1..], b, units - Units(a[0]));
      } else {
        SkipConcat(drop, a[1..], b, 0);
        var head := [TrimWith(drop, a[0], units).value];
        assert SkipWith(drop, a[1..] + b, 0) == SkipWith(drop, a[1..], 0) + SkipWith(drop, b, 0) by {
          if VisibleUnits(a[1..]) == 0 {
            SkipUnitsWith(drop, a[1..], 0);
            SkippedHaveUnits(drop, a[1..], 0);
          }
        }
        assert head + (SkipWith(drop, a[1..], 0) + SkipWith(drop, b, 0))
          == head + SkipWith(drop, a[1..], 0) + SkipWith(drop, b, 0);
      }
    }
  }

  // ------------------------------------------------------------ the methods

  /** How many glyphs are still to be removed after these spans. */
  function Left(spans: seq<Span>, count: nat): nat {
    if |Flatten(spans)| <= count then count - |Flatten(spans)| else 0
  }

  /** `r` and `left` are what is known after these spans. */
  ghost predicate Removed(done: seq<Span>, count: nat, left: nat, r: seq<Span>) {
    left == Left(done, count) && r == DropGlyphs(done, count)
  }

  lemma RemovedNext(done: seq<Span>, span: Span, count: nat, left: nat, r: seq<Span>)
    requires Removed(done, count, left, r)
    ensures if left >= |span.text| then Removed(done + [span], count, left - |span.text|, r)
            else Removed(done + [span], count, 0, Push(r, span.text[left..], span.style))
  {
    DropGlyphsNext(done, span, count);
  }

  /** Removes the first `count` glyphs, skipping whole spans first. */
  method TrimSpans(spans: seq<Span>, count: nat) returns (r: seq<Span>)
    ensures r == DropGlyphs(spans, count)
  {
    var left := count;
    r := [];
    for i := 0 to |spans|
      invariant Removed(spans[..i], count, left, r)
    {
      var span := spans[i];
      assert spans[..i] + [span] == spans[..i + 1];
      left, r := TrimSpan(span, left, r, spans[..i], count);
    }
    assert spans[..|spans|] == spans;
  }

  method TrimSpan(span: Span, left: nat, r: seq<Span>, ghost done: seq<Span>, ghost count: nat)
    returns (rest: nat, out: seq<Span>)
    requires Removed(done, count, left, r)
    ensures Removed(done + [span], count, rest, out)
  {
    RemovedNext(done, span, count, left, r);
    if left >= |span.text| { return left - |span.text|, r; }
    return 0, Push(r, span.text[left..], span.style);
  }

  lemma DropGlyphsNext(spans: seq<Span>, span: Span, count: nat)
    ensures |Flatten(spans + [span])| == |Flatten(spans)| + |span.text|
    ensures var left := Left(spans, count);
            DropGlyphs(spans + [span], count) ==
            if left >= |span.text| then DropGlyphs(spans, count)
            else Push(DropGlyphs(spans, count), span.text[left..], span.style)
  {
    var atoms, more := Flatten(spans), Styled(span.text, span.style);
    var left := Left(spans, count);
    assert (spans + [span])[..|spans|] == spans;
    assert Flatten(spans + [span]) == atoms + more;
    if left >= |span.text| {
      assert Drop(atoms + more, count) == Drop(atoms, count);
    } else {
      assert Drop(atoms + more, count) == Drop(atoms, count) + Styled(span.text[left..], span.style);
      PushIsMerge(Drop(atoms, count), span.text[left..], span.style);
    }
  }

  method TrimVisiblePrefix(line: Line, units: nat) returns (r: Option<Line>)
    ensures r == Trim(line, units)
  {
    if units >= line.sourceUnits + (if line.hardBreak then 1 else 0) { return None; }
    if units == 0 { return Some(line); }
    var spans := TrimSpans(line.spans, units + line.syntheticUnits);
    return Some(Line(spans, line.hardBreak, line.sourceUnits - units, 0, 0));
  }

  /** `visible` is what skipping has shown, `left` what is still to skip in `rest`. */
  ghost predicate Skipping(lines: seq<Line>, units: nat, visible: seq<Line>, rest: seq<Line>, left: nat) {
    visible + Skip(rest, left) == Skip(lines, units)
  }

  lemma SkippingNext(lines: seq<Line>, units: nat, visible: seq<Line>, head: Line, tail: seq<Line>, left: nat)
    requires Skipping(lines, units, visible, [head] + tail, left)
    ensures if left >= Units(head) then Skipping(lines, units, visible, tail, left - Units(head))
            else Skipping(lines, units, visible + [Trim(head, left).value], tail, 0)
  {
    SkipFirst(DropGlyphs, head, tail, left);
  }

  method SkipVisiblePrefix(lines: seq<Line>, units: nat) returns (visible: seq<Line>)
    ensures visible == Skip(lines, units)
  {
    visible := [];
    var left := units;
    ghost var rest := lines;
    for i := 0 to |lines|
      invariant rest == lines[i..] && Skipping(lines, units, visible, rest, left)
    {
      assert rest == [lines[i]] + lines[i + 1..];
      SkippingNext(lines, units, visible, lines[i], lines[i + 1..], left);
      rest := lines[i + 1..];
      var count := Units(lines[i]);
      if left >= count {
        left := left - count;
      } else {
        var trimmed := TrimVisiblePrefix(lines[i], left);
        visible := visible + [trimmed.value];
        left := 0;
      }
    }
    SkipNothing(left);
  }

  lemma SkipNothing(units: nat)
    ensures Skip([], units) == []
  {
  }
}
