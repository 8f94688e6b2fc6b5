/** Word-wrapping note text with a per-character source map, and placing a caret in the result. */
module Wrapping {
  import opened Text

  /** One rendered line and, per rendered character, the index of the source character it stands for. */
  datatype WrappedLine = WrappedLine(text: string, sources: seq<nat>)

  /** A rendered character that is not indentation. */
  datatype Cell = Cell(glyph: char, source: nat)

  /** A rendered line split into its hanging indent and its own characters. */
  datatype Segment = Segment(origin: nat, indent: string, body: seq<Cell>)

  /** The indent every rendered line of one source line hangs under. */
  datatype Margin = Margin(origin: nat, indent: string)

  /** Progress on one source line: finished lines, and the body of the line being filled. */
  datatype Pen = Pen(done: seq<Segment>, body: seq<Cell>)

  function Glyphs(body: seq<Cell>): (s: string)
    ensures |s| == |body|
  {
    seq(|body|, i requires 0 <= i < |body| => body[i].glyph)
  }

  function Sources(body: seq<Cell>): (s: seq<nat>)
    ensures |s| == |body|
  {
    seq(|body|, i requires 0 <= i < |body| => body[i].source)
  }

  function Render(s: Segment): WrappedLine {
    WrappedLine(s.indent + Glyphs(s.body), seq(|s.indent|, _ => s.origin) + Sources(s.body))
  }

  function RenderAll(segments: seq<Segment>): (lines: seq<WrappedLine>)
    ensures |lines| == |segments|
  {
    seq(|segments|, i requires 0 <= i < |segments| => Render(segments[i]))
  }

  function BodyWidth(w: CellWidth, body: seq<Cell>): nat { Cells(w, Glyphs(body)) }

  lemma BodyPush(w: CellWidth, body: seq<Cell>, c: Cell)
    ensures BodyWidth(w, body + [c]) == BodyWidth(w, body) + w(c.glyph)
    ensures Glyphs(body + [c]) == Glyphs(body) + [c.glyph]
    ensures Sources(body + [c]) == Sources(body) + [c.source]
  {
    CellsPush(w, Glyphs(body), c.glyph);
    assert Glyphs(body + [c]) == Glyphs(body) + [c.glyph];
  }

  // ---- The wrapper as a function ----------------------------------------------------------

  function IndentOf(w: CellWidth, width: nat, text: string, at: nat, end: nat): string
    requires at <= end <= |text|
  {
    var indent := text[at..NextWord(text, at, end)];
    if Cells(w, indent) + 4 <= width then indent else ""
  }

  function Flush(m: Margin, pen: Pen): Pen {
    Pen(pen.done + [Segment(m.origin, m.indent, pen.body)], [])
  }

  function PutGlyph(w: CellWidth, width: nat, m: Margin, pen: Pen, c: char, source: nat): Pen {
    var used := BodyWidth(w, pen.body);
    var pen := if used > 0 && Cells(w, m.indent) + used + w(c) > width then Flush(m, pen) else pen;
    Pen(pen.done, pen.body + [Cell(c, source)])
  }

  function PutWord(w: CellWidth, width: nat, m: Margin, pen: Pen, text: string, at: nat, end: nat): Pen
    requires at <= end <= |text|
    decreases end - at
  {
    if at == end then pen
    else PutWord(w, width, m, PutGlyph(w, width, m, pen, text[at], at), text, at + 1, end)
  }

  /** What precedes a word: a separator if the word still fits, a line break if not, nothing at a line start. */
  function StartWord(w: CellWidth, width: nat, m: Margin, pen: Pen, gap: nat, wordWidth: nat): Pen {
    var used := BodyWidth(w, pen.body);
    if used == 0 then pen
    else if Cells(w, m.indent) + used + 1 + wordWidth <= width then Pen(pen.done, pen.body + [Cell(' ', gap)])
    else Flush(m, pen)
  }

  function PutRest(w: CellWidth, width: nat, m: Margin, pen: Pen, text: string, at: nat, end: nat): Pen
    requires at <= end <= |text|
    decreases end - at
  {
    var start := NextWord(text, at, end);
    if start == end then pen
    else
      var stop := WordEnd(text, start, end);
      var pen := StartWord(w, width, m, pen, at, Cells(w, text[start..stop]));
      PutRest(w, width, m, PutWord(w, width, m, pen, text, start, stop), text, stop, end)
  }

  function FinishLine(w: CellWidth, m: Margin, pen: Pen, blank: bool): seq<Segment> {
    if BodyWidth(w, pen.body) > 0 then Flush(m, pen).done
    else if blank then pen.done + [Segment(m.origin, "", [])]
    else pen.done
  }

  function WrapLine(w: CellWidth, width: nat, text: string, at: nat, end: nat): seq<Segment>
    requires at <= end <= |text|
  {
    var m := Margin(at, IndentOf(w, width, text, at, end));
    FinishLine(w, m, PutRest(w, width, m, Pen([], []), text, NextWord(text, at, end), end), at == end)
  }

  function WrapFrom(w: CellWidth, width: nat, text: string, at: nat): seq<Segment>
    requires at <= |text|
    decreases |text| - at
  {
    if at == |text| then [] else
      var end := LineEnd(text, at);
      WrapLine(w, width, text, at, end) + WrapFrom(w, width, text, NextLine(text, at))
  }

  function WrapText(w: CellWidth, width: nat, text: string): seq<Segment> {
    var segments := WrapFrom(w, Max(width, 1), text, 0);
    if segments == [] then [Segment(0, "", [])] else segments
  }

  // ---- The wrapper as the loops it is -----------------------------------------------------

  lemma RenderFlush(m: Margin, pen: Pen)
    ensures RenderAll(Flush(m, pen).done)
         == RenderAll(pen.done) + [Render(Segment(m.origin, m.indent, pen.body))]
  {
  }

  lemma RenderConcat(a: seq<Segment>, b: seq<Segment>)
    ensures RenderAll(a + b) == RenderAll(a) + RenderAll(b)
  {
  }

  /** The line under construction, as the loop variables hold it. */
  ghost predicate Holds(w: CellWidth, m: Margin, pen: Pen, before: seq<WrappedLine>,
                        output: seq<WrappedLine>, current: string, sources: seq<nat>, used: nat)
  {
    && output == before + RenderAll(pen.done)
    && WrappedLine(current, sources) == Render(Segment(m.origin, m.indent, pen.body))
    && used == Cells(w, m.indent) + BodyWidth(w, pen.body)
  }

  lemma HoldsFlush(w: CellWidth, m: Margin, pen: Pen, before: seq<WrappedLine>,
                   output: seq<WrappedLine>, current: string, sources: seq<nat>, used: nat)
    requires Holds(w, m, pen, before, output, current, sources, used)
    ensures Holds(w, m, Flush(m, pen), before, output + [WrappedLine(current, sources)],
                  m.indent, seq(|m.indent|, _ => m.origin), Cells(w, m.indent))
  {
    RenderFlush(m, pen);
  }

  lemma HoldsPush(w: CellWidth, m: Margin, pen: Pen, before: seq<WrappedLine>,
                  output: seq<WrappedLine>, current: string, sources: seq<nat>, used: nat, c: char, source: nat)
    requires Holds(w, m, pen, before, output, current, sources, used)
    ensures Holds(w, m, Pen(pen.done, pen.body + [Cell(c, source)]), before, output,
                  current + [c], sources + [source], used + w(c))
  {
    BodyPush(w, pen.body, Cell(c, source));
    var pads := seq(|m.indent|, _ => m.origin);
    assert pads + Sources(pen.body) + [source] == pads + (Sources(pen.body) + [source]);
    assert m.indent + Glyphs(pen.body) + [c] == m.indent + (Glyphs(pen.body) + [c]);
  }

  /** The character loop: a word wider than what is left of the line is broken across lines. */
  method PlaceWord(w: CellWidth, width: nat, ghost m: Margin, ghost pen0: Pen, ghost before: seq<WrappedLine>,
                   output0: seq<WrappedLine>, current0: string, sources0: seq<nat>, used0: nat,
                   origin: nat, indent: string, text: string, start: nat, stop: nat)
    returns (output: seq<WrappedLine>, current: string, sources: seq<nat>, used: nat)
    requires start <= stop <= |text| && m == Margin(origin, indent)
    requires Holds(w, m, pen0, before, output0, current0, sources0, used0)
    ensures Holds(w, m, PutWord(w, width, m, pen0, text, start, stop), before, output, current, sources, used)
  {
    output, current, sources, used := output0, current0, sources0, used0;
    var cursor := start;
    ghost var pen := pen0;
    while cursor < stop
      invariant start <= cursor <= stop
      invariant Holds(w, m, pen, before, output, current, sources, used)
      invariant PutWord(w, width, m, pen, text, cursor, stop) == PutWord(w, width, m, pen0, text, start, stop)
    {
      var c := text[cursor];
      ghost var next := PutGlyph(w, width, m, pen, c, cursor);
      if used > Cells(w, indent) && used + w(c) > width {
        HoldsFlush(w, m, pen, before, output, current, sources, used);
        output := output + [WrappedLine(current, sources)];
        current, sources, used := indent, seq(|indent|, _ => origin), Cells(w, indent);
        pen := Flush(m, pen);
      }
      HoldsPush(w, m, pen, before, output, current, sources, used, c, cursor);
      current, sources, used := current + [c], sources + [cursor], used + w(c);
      pen := next;
      cursor := cursor + 1;
    }
  }

  /** The separator that may precede a word, or the line break that replaces it. */
  method BeginWord(w: CellWidth, width: nat, ghost m: Margin, ghost pen: Pen, ghost before: seq<WrappedLine>,
                   output0: seq<WrappedLine>, current0: string, sources0: seq<nat>, used0: nat,
                   origin: nat, indent: string, gap: nat, wordWidth: nat)
    returns (output: seq<WrappedLine>, current: string, sources: seq<nat>, used: nat)
    requires m == Margin(origin, indent) && w(' ') == 1
    requires Holds(w, m, pen, before, output0, current0, sources0, used0)
    ensures Holds(w, m, StartWord(w, width, m, pen, gap, wordWidth), before, output, current, sources, used)
  {
    output, current, sources, used := output0, current0, sources0, used0;
    if used > Cells(w, indent) && used + 1 + wordWidth <= width {
      HoldsPush(w, m, pen, before, output, current, sources, used, ' ', gap);
      current, sources, used := current + [' '], sources + [gap], used + 1;
    } else if used > Cells(w, indent) {
      HoldsFlush(w, m, pen, before, output, current, sources, used);
      output := output + [WrappedLine(current, sources)];
      current, sources, used := indent, seq(|indent|, _ => origin), Cells(w, indent);
    }
  }

  /** The word loop over one source line, and what is left when its words run out. */
  method WrapSourceLine(w: CellWidth, width: nat, text: string, origin: nat, end: nat, before: seq<WrappedLine>)
    returns (output: seq<WrappedLine>)
    requires origin <= end <= |text| && w(' ') == 1
    ensures output == before + RenderAll(WrapLine(w, width, text, origin, end))
  {
    output := before;
    var cursor := NextWord(text, origin, end);
    var indent := IndentOf(w, width, text, origin, end);
    var current: string, sources: seq<nat>, used: nat := indent, seq(|indent|, _ => origin), Cells(w, indent);
    ghost var m, pen := Margin(origin, indent), Pen([], []);
    ghost var goal := PutRest(w, width, m, pen, text, cursor, end);
    while NextWord(text, cursor, end) < end
      invariant origin <= cursor <= end
      invariant Holds(w, m, pen, before, output, current, sources, used)
      invariant PutRest(w, width, m, pen, text, cursor, end) == goal
      decreases end - cursor
    {
      var start := NextWord(text, cursor, end);
      var stop := WordEnd(text, start, end);
      var wordWidth := Cells(w, text[start..stop]);
      ghost var begun := StartWord(w, width, m, pen, cursor, wordWidth);
      output, current, sources, used :=
        BeginWord(w, width, m, pen, before, output, current, sources, used, origin, indent, cursor, wordWidth);
      output, current, sources, used :=
        PlaceWord(w, width, m, begun, before, output, current, sources, used, origin, indent, text, start, stop);
      pen := PutWord(w, width, m, begun, text, start, stop);
      cursor := stop;
    }
    FinishHolds(w, m, pen, before, output, current, sources, used, origin == end);
    if used > Cells(w, indent) {
      output := output + [WrappedLine(current, sources)];
    } else if origin == end {
      output := output + [WrappedLine("", [])];
    }
  }

  lemma FinishHolds(w: CellWidth, m: Margin, pen: Pen, before: seq<WrappedLine>,
                    output: seq<WrappedLine>, current: string, sources: seq<nat>, used: nat, blank: bool)
    requires Holds(w, m, pen, before, output, current, sources, used)
    ensures before + RenderAll(FinishLine(w, m, pen, blank))
         == output + (if used > Cells(w, m.indent) then [WrappedLine(current, sources)]
                      else if blank then [WrappedLine("", [])] else [])
  {
    RenderFlush(m, pen);
    var empty := Segment(m.origin, "", []);
    RenderConcat(pen.done, [empty]);
    assert RenderAll([empty]) == [Render(empty)];
    assert Render(empty) == WrappedLine("", []);
  }

  lemma RenderStep(before: seq<WrappedLine>, a: seq<Segment>, b: seq<Segment>)
    ensures before + RenderAll(a + b) == before + RenderAll(a) + RenderAll(b)
  {
    RenderConcat(a, b);
    assert before + (RenderAll(a) + RenderAll(b)) == before + RenderAll(a) + RenderAll(b);
  }

  function NextLine(text: string, at: nat): (next: nat)
    requires at < |text|
    ensures at < next <= |text|
  {
    Min(LineEnd(text, at) + 1, |text|)
  }

  method WrapNoteTextIndexed(w: CellWidth, text: string, requested: nat) returns (output: seq<WrappedLine>)
    requires w(' ') == 1 && NoCrLf(text)
    ensures output == RenderAll(WrapText(w, requested, text))
  {
    var width := Max(requested, 1);
    output := [];
    var origin := 0;
    ghost var goal := RenderAll(WrapFrom(w, width, text, 0));
    while origin < |text|
      invariant 0 <= origin <= |text|
      invariant output + RenderAll(WrapFrom(w, width, text, origin)) == goal
    {
      var end := LineEnd(text, origin);
      var before := output;
      RenderStep(before, WrapLine(w, width, text, origin, end), WrapFrom(w, width, text, NextLine(text, origin)));
      output := WrapSourceLine(w, width, text, origin, end, before);
      origin := NextLine(text, origin);
    }
    assert RenderAll(WrapFrom(w, width, text, |text|)) == [];
    if output == [] {
      output := [WrappedLine("", [])];
      assert Render(Segment(0, "", [])) == WrappedLine("", []);
    }
  }

  // ---- Carets -----------------------------------------------------------------------------

  /** Index of the first source at or past the caret, or the number of sources. */
  function FirstAtLeast(sources: seq<nat>, caret: nat, from: nat): (p: nat)
    requires from <= |sources|
    ensures from <= p <= |sources|
    ensures forall i :: from <= i < p ==> sources[i] < caret
    ensures p < |sources| ==> caret <= sources[p]
    decreases |sources| - from
  {
    if from == |sources| || caret <= sources[from] then from else FirstAtLeast(sources, caret, from + 1)
  }

  function Take(s: string, n: nat): string {
    s[..Min(n, |s|)]
  }

  function CaretFrom(w: CellWidth, lines: seq<WrappedLine>, row: nat, caret: nat): (nat, nat)
    requires row <= |lines|
    decreases |lines| - row
  {
    if row == |lines| then
      (Monus(|lines|, 1), if lines == [] then 0 else Cells(w, lines[|lines| - 1].text))
    else
      var position := FirstAtLeast(lines[row].sources, caret, 0);
      if position < |lines[row].sources| then (row, Cells(w, Take(lines[row].text, position)))
      else CaretFrom(w, lines, row + 1, caret)
  }

  /** The (row, display column) of a caret sitting at source index `caret`. */
  function CaretCell(w: CellWidth, lines: seq<WrappedLine>, caret: nat): (nat, nat) {
    CaretFrom(w, lines, 0, caret)
  }
}
