/** What wrapping promises: nothing visible is lost, lines fit, breaks are forced, carets land where they should. */
module WrappingProofs {
  import opened Text
  import opened Wrapping

  // ---- The properties ---------------------------------------------------------------------

  /** All non-indent characters of a run of rendered lines, in reading order. */
  function Flat(segments: seq<Segment>): seq<Cell> {
    if segments == [] then []
    else Flat(segments[..|segments| - 1]) + segments[|segments| - 1].body
  }

  ghost predicate Increasing(cells: seq<Cell>) {
    forall i, j :: 0 <= i < j < |cells| ==> cells[i].source < cells[j].source
  }

  /** A cell shows its own source character, or stands for the whitespace run that starts there. */
  ghost predicate Faithful(text: string, c: Cell) {
    c.source < |text| &&
    if IsWhitespace(text[c.source])
    then c.glyph == ' ' && c.source > 0 && !IsWhitespace(text[c.source - 1])
    else c.glyph == text[c.source]
  }

  ghost predicate AllFaithful(text: string, cells: seq<Cell>, lo: nat, hi: nat) {
    forall i :: 0 <= i < |cells| ==> lo <= cells[i].source < hi && Faithful(text, cells[i])
  }

  ghost predicate Covers(text: string, cells: seq<Cell>, lo: nat, hi: nat)
    requires hi <= |text|
  {
    forall i :: lo <= i < hi && !IsWhitespace(text[i]) ==> Cell(text[i], i) in cells
  }

  ghost predicate CoversVisible(w: CellWidth, text: string, cells: seq<Cell>, lo: nat, hi: nat)
    requires hi <= |text|
  {
    forall i :: lo <= i < hi && !IsWhitespace(text[i]) && w(text[i]) > 0 ==> Cell(text[i], i) in cells
  }

  /** Only an empty source line renders without characters; an indent repeats the blanks its line starts with. */
  ghost predicate Shaped(text: string, s: Segment, lo: nat, hi: nat)
    requires hi <= |text|
  {
    && lo <= s.origin <= hi
    && (s.origin == 0 || text[s.origin - 1] == '\n')
    && (s.body == [] ==> s.indent == "")
    && (s.body != [] ==> s.origin + |s.indent| <= s.body[0].source)
    && s.origin + |s.indent| <= hi
    && s.indent == text[s.origin..s.origin + |s.indent|]
    && (forall i :: 0 <= i < |s.indent| ==> IsWhitespace(s.indent[i]))
  }

  ghost predicate AllShaped(text: string, segments: seq<Segment>, lo: nat, hi: nat)
    requires hi <= |text|
  {
    forall i :: 0 <= i < |segments| ==> Shaped(text, segments[i], lo, hi)
  }

  ghost predicate Lossless(w: CellWidth, text: string, segments: seq<Segment>, lo: nat, hi: nat)
    requires hi <= |text|
  {
    var cells := Flat(segments);
    && Increasing(cells)
    && AllFaithful(text, cells, lo, hi)
    && CoversVisible(w, text, cells, lo, hi)
    && AllShaped(text, segments, lo, hi)
  }

  // ---- Bookkeeping over the pen -----------------------------------------------------------

  function PenCells(pen: Pen): seq<Cell> { Flat(pen.done) + pen.body }

  lemma FlatPush(done: seq<Segment>, s: Segment)
    ensures Flat(done + [s]) == Flat(done) + s.body
  {
    assert (done + [s])[..|done|] == done;
  }

  lemma {:induction false} FlatConcat(a: seq<Segment>, b: seq<Segment>)
    ensures Flat(a + b) == Flat(a) + Flat(b)
  {
    if b == [] {
      assert a + b == a;
    } else {
      hide Flat;
      var front, last := b[..|b| - 1], b[|b| - 1];
      FlatConcat(a, front);
      FlatPush(a + front, last);
      FlatPush(front, last);
      Assoc(a, front, [last]);
      assert front + [last] == b;
      Assoc(Flat(a), Flat(front), last.body);
    }
  }

  ghost predicate Tracks(text: string, cells: seq<Cell>, lo: nat, pos: nat) {
    && lo <= pos <= |text|
    && Increasing(cells)
    && AllFaithful(text, cells, lo, pos)
    && Covers(text, cells, lo, pos)
  }

  /** Margins and the lines hung under them keep their shape while a source line is written. */
  ghost predicate Hung(text: string, m: Margin, pen: Pen, lo: nat, hi: nat)
    requires hi <= |text|
  {
    && lo <= m.origin && m.origin + |m.indent| <= hi
    && (m.origin == 0 || text[m.origin - 1] == '\n')
    && m.indent == text[m.origin..m.origin + |m.indent|]
    && (forall i :: 0 <= i < |m.indent| ==> IsWhitespace(m.indent[i]))
    && AllShaped(text, pen.done, lo, hi)
    && (pen.body != [] ==> m.origin + |m.indent| <= pen.body[0].source)
  }

  lemma FlushKeepsCells(m: Margin, pen: Pen)
    ensures PenCells(Flush(m, pen)) == PenCells(pen)
  {
    FlatPush(pen.done, Segment(m.origin, m.indent, pen.body));
  }

  lemma PutGlyphCells(w: CellWidth, width: nat, m: Margin, pen: Pen, c: char, source: nat)
    ensures PenCells(PutGlyph(w, width, m, pen, c, source)) == PenCells(pen) + [Cell(c, source)]
  {
    hide Flush, Cells, BodyWidth, PenCells;
    FlushKeepsCells(m, pen);
    var used := BodyWidth(w, pen.body);
    PenPush(if used > 0 && Cells(w, m.indent) + used + w(c) > width then Flush(m, pen) else pen, Cell(c, source));
  }

  lemma TracksGlyph(text: string, cells: seq<Cell>, lo: nat, pos: nat)
    requires Tracks(text, cells, lo, pos) && pos < |text| && !IsWhitespace(text[pos])
    ensures Tracks(text, cells + [Cell(text[pos], pos)], lo, pos + 1)
  {
    var after := cells + [Cell(text[pos], pos)];
    forall i | lo <= i < pos + 1 && !IsWhitespace(text[i]) ensures Cell(text[i], i) in after {
      if i < pos { assert Cell(text[i], i) in cells; } else { assert after[|cells|] == Cell(text[i], i); }
    }
  }

  lemma TracksSkip(text: string, cells: seq<Cell>, lo: nat, gap: nat, pos: nat)
    requires Tracks(text, cells, lo, gap) && gap <= pos <= |text|
    requires forall i :: gap <= i < pos ==> IsWhitespace(text[i])
    ensures Tracks(text, cells, lo, pos)
  {
  }

  lemma TracksSeparator(text: string, cells: seq<Cell>, lo: nat, gap: nat, pos: nat)
    requires Tracks(text, cells, lo, gap) && lo < gap < pos <= |text|
    requires !IsWhitespace(text[gap - 1]) && forall i :: gap <= i < pos ==> IsWhitespace(text[i])
    ensures Tracks(text, cells + [Cell(' ', gap)], lo, pos)
  {
    var after := cells + [Cell(' ', gap)];
    forall i | lo <= i < pos && !IsWhitespace(text[i]) ensures Cell(text[i], i) in after {
      assert Cell(text[i], i) in cells;
    }
  }

  lemma PutGlyphTracks(w: CellWidth, width: nat, m: Margin, pen: Pen, text: string, at: nat, lo: nat, hi: nat)
    requires at < hi <= |text| && Tracks(text, PenCells(pen), lo, at) && Hung(text, m, pen, lo, hi)
    requires m.origin + |m.indent| <= at && !IsWhitespace(text[at])
    ensures var after := PutGlyph(w, width, m, pen, text[at], at);
      Tracks(text, PenCells(after), lo, at + 1) && Hung(text, m, after, lo, hi) && after.body != []
  {
    hide *;
    PutGlyphCells(w, width, m, pen, text[at], at);
    TracksGlyph(text, PenCells(pen), lo, at);
    PutGlyphHangs(w, width, m, pen, text, at, lo, hi);
  }

  lemma PutGlyphHangs(w: CellWidth, width: nat, m: Margin, pen: Pen, text: string, at: nat, lo: nat, hi: nat)
    requires at < hi <= |text| && Hung(text, m, pen, lo, hi) && m.origin + |m.indent| <= at
    ensures var after := PutGlyph(w, width, m, pen, text[at], at); Hung(text, m, after, lo, hi) && after.body != []
  {
    hide Cells, IsWhitespace;
    NoWidth(w);
  }

  lemma {:induction false} PutWordTracks(w: CellWidth, width: nat, m: Margin, pen: Pen, text: string,
                                         at: nat, end: nat, lo: nat, hi: nat)
    requires at <= end <= hi <= |text| && Tracks(text, PenCells(pen), lo, at) && Hung(text, m, pen, lo, hi)
    requires m.origin + |m.indent| <= at
    requires forall i :: at <= i < end ==> !IsWhitespace(text[i])
    ensures var after := PutWord(w, width, m, pen, text, at, end);
      Tracks(text, PenCells(after), lo, end) && Hung(text, m, after, lo, hi) && (at < end ==> after.body != [])
    decreases end - at
  {
    if at < end {
      hide Tracks, Hung, PenCells, PutGlyph, IsWhitespace;
      var next := PutGlyph(w, width, m, pen, text[at], at);
      PutGlyphTracks(w, width, m, pen, text, at, lo, hi);
      PutWordTracks(w, width, m, next, text, at + 1, end, lo, hi);
    }
  }

  lemma StartWordTracks(w: CellWidth, width: nat, m: Margin, pen: Pen, text: string,
                        gap: nat, start: nat, wordWidth: nat, lo: nat, hi: nat)
    requires gap <= start <= hi <= |text| && Tracks(text, PenCells(pen), lo, gap) && Hung(text, m, pen, lo, hi)
    requires m.origin + |m.indent| <= gap
    requires forall i :: gap <= i < start ==> IsWhitespace(text[i])
    requires pen.body != [] ==> lo < gap < start && !IsWhitespace(text[gap - 1])
    ensures var after := StartWord(w, width, m, pen, gap, wordWidth);
      Tracks(text, PenCells(after), lo, start) && Hung(text, m, after, lo, hi)
  {
    hide Tracks, Hung, PenCells, Flush, IsWhitespace, Cells;
    TracksSkip(text, PenCells(pen), lo, gap, start);
    FlushKeepsCells(m, pen);
    StartWordHangs(w, width, m, pen, text, gap, wordWidth, lo, hi);
    if pen.body != [] {
      TracksSeparator(text, PenCells(pen), lo, gap, start);
      PenPush(pen, Cell(' ', gap));
    } else {
      NoWidth(w);
    }
  }

  lemma NoWidth(w: CellWidth)
    ensures BodyWidth(w, []) == 0
  {
  }

  lemma PenPush(pen: Pen, c: Cell)
    ensures PenCells(Pen(pen.done, pen.body + [c])) == PenCells(pen) + [c]
  {
    hide Flat;
    Assoc(Flat(pen.done), pen.body, [c]);
  }

  lemma StartWordHangs(w: CellWidth, width: nat, m: Margin, pen: Pen, text: string, gap: nat, wordWidth: nat, lo: nat,
                       hi: nat)
    requires gap <= hi <= |text| && Hung(text, m, pen, lo, hi) && m.origin + |m.indent| <= gap
    ensures Hung(text, m, StartWord(w, width, m, pen, gap, wordWidth), lo, hi)
  {
    hide Cells, IsWhitespace;
    NoWidth(w);
  }

  lemma {:induction false} PutRestTracks(w: CellWidth, width: nat, m: Margin, pen: Pen, text: string,
                                         at: nat, end: nat, lo: nat)
    requires at <= end <= |text| && Tracks(text, PenCells(pen), lo, at) && Hung(text, m, pen, lo, end)
    requires m.origin + |m.indent| <= at
    requires pen.body != [] ==> lo < at && !IsWhitespace(text[at - 1]) && (at < end ==> IsWhitespace(text[at]))
    ensures var after := PutRest(w, width, m, pen, text, at, end);
      Tracks(text, PenCells(after), lo, end) && Hung(text, m, after, lo, end)
    decreases end - at
  {
    var start := NextWord(text, at, end);
    if start == end {
      TracksSkip(text, PenCells(pen), lo, at, end);
    } else {
      var stop := WordEnd(text, start, end);
      var wordWidth := Cells(w, text[start..stop]);
      StartWordTracks(w, width, m, pen, text, at, start, wordWidth, lo, end);
      var begun := StartWord(w, width, m, pen, at, wordWidth);
      PutWordTracks(w, width, m, begun, text, start, stop, lo, end);
      PutRestTracks(w, width, m, PutWord(w, width, m, begun, text, start, stop), text, stop, end, lo);
    }
  }

  lemma {:induction false} ZeroWidth(w: CellWidth, body: seq<Cell>, i: nat)
    requires BodyWidth(w, body) == 0 && i < |body|
    ensures w(body[i].glyph) == 0
  {
    var s := Glyphs(body);
    assert s == s[..i] + ([s[i]] + s[i + 1..]);
    CellsConcat(w, s[..i], [s[i]] + s[i + 1..]);
    CellsConcat(w, [s[i]], s[i + 1..]);
  }

  lemma FinishLossless(w: CellWidth, m: Margin, pen: Pen, text: string, lo: nat, end: nat)
    requires end <= |text| && Tracks(text, PenCells(pen), lo, end) && Hung(text, m, pen, lo, end)
    requires lo == end ==> m.origin == lo && pen == Pen([], [])
    ensures Lossless(w, text, FinishLine(w, m, pen, lo == end), lo, end)
  {
    FlushKeepsCells(m, pen);
    if BodyWidth(w, pen.body) == 0 {
      forall i | lo <= i < end && !IsWhitespace(text[i]) && w(text[i]) > 0
        ensures Cell(text[i], i) in Flat(pen.done)
      {
        assert Cell(text[i], i) in Flat(pen.done) + pen.body;
        if Cell(text[i], i) in pen.body {
          var k :| 0 <= k < |pen.body| && pen.body[k] == Cell(text[i], i);
          ZeroWidth(w, pen.body, k);
        }
      }
      forall i, j | 0 <= i < j < |Flat(pen.done)|
        ensures Flat(pen.done)[i].source < Flat(pen.done)[j].source
      {
        assert PenCells(pen)[i] == Flat(pen.done)[i] && PenCells(pen)[j] == Flat(pen.done)[j];
      }
      forall i | 0 <= i < |Flat(pen.done)|
        ensures lo <= Flat(pen.done)[i].source < end && Faithful(text, Flat(pen.done)[i])
      {
        assert PenCells(pen)[i] == Flat(pen.done)[i];
      }
      if lo == end { FlatPush([], Segment(m.origin, "", [])); }
    }
  }

  lemma WrapLineLossless(w: CellWidth, width: nat, text: string, at: nat, end: nat)
    requires at <= end <= |text| && (at == 0 || text[at - 1] == '\n')
    ensures Lossless(w, text, WrapLine(w, width, text, at, end), at, end)
  {
    var m := Margin(at, IndentOf(w, width, text, at, end));
    var first := NextWord(text, at, end);
    PutRestTracks(w, width, m, Pen([], []), text, first, end, at);
    FinishLossless(w, m, PutRest(w, width, m, Pen([], []), text, first, end), text, at, end);
  }

  lemma LosslessConcat(w: CellWidth, text: string, a: seq<Segment>, b: seq<Segment>, lo: nat, mid: nat, next: nat,
                       hi: nat)
    requires lo <= mid <= next <= hi <= |text|
    requires Lossless(w, text, a, lo, mid) && Lossless(w, text, b, next, hi)
    requires forall i :: mid <= i < next ==> IsWhitespace(text[i])
    ensures Lossless(w, text, a + b, lo, hi)
  {
    FlatConcat(a, b);
    var cells := Flat(a + b);
    forall i | lo <= i < hi && !IsWhitespace(text[i]) && w(text[i]) > 0 ensures Cell(text[i], i) in cells {
      if i < mid { assert Cell(text[i], i) in Flat(a); } else { assert Cell(text[i], i) in Flat(b); }
    }
  }

  lemma WrapFromStep(w: CellWidth, width: nat, text: string, at: nat)
    requires at < |text|
    ensures var end, next := LineEnd(text, at), NextLine(text, at);
      && WrapFrom(w, width, text, at) == WrapLine(w, width, text, at, end) + WrapFrom(w, width, text, next)
      && at <= end <= next <= |text| && at < next && (next == |text| || text[next - 1] == '\n')
      && forall i :: end <= i < next ==> IsWhitespace(text[i])
  {
    hide WrapLine, LineEnd;
  }

  lemma NothingLossless(w: CellWidth, width: nat, text: string)
    ensures Lossless(w, text, WrapFrom(w, width, text, |text|), |text|, |text|)
  {
  }

  lemma {:induction false} WrapFromLossless(w: CellWidth, width: nat, text: string, at: nat)
    requires at <= |text| && (at == 0 || at == |text| || text[at - 1] == '\n')
    ensures Lossless(w, text, WrapFrom(w, width, text, at), at, |text|)
    decreases |text| - at
  {
    hide *;
    if at == |text| {
      NothingLossless(w, width, text);
    } else {
      var end, next := LineEnd(text, at), NextLine(text, at);
      WrapFromStep(w, width, text, at);
      WrapLineLossless(w, width, text, at, end);
      WrapFromLossless(w, width, text, next);
      LosslessConcat(w, text, WrapLine(w, width, text, at, end), WrapFrom(w, width, text, next), at, end, next, |text|);
    }
  }

  /** Every visible character appears exactly once, in order, next to nothing but itself; see `Lossless`. */
  lemma WrapIsLossless(w: CellWidth, width: nat, text: string)
    ensures Lossless(w, text, WrapText(w, width, text), 0, |text|)
  {
    WrapFromLossless(w, Max(width, 1), text, 0);
    FlatPush([], Segment(0, "", []));
  }

  // ---- What lines hang under --------------------------------------------------------------

  /** The finished lines of a source line all hang under its margin. */
  ghost predicate AllUnder(m: Margin, done: seq<Segment>) {
    forall k :: 0 <= k < |done| ==> done[k].origin == m.origin && done[k].indent == m.indent
  }

  lemma {:induction false} PutWordUnder(w: CellWidth, width: nat, m: Margin, pen: Pen, text: string, at: nat, end: nat)
    requires at <= end <= |text| && AllUnder(m, pen.done)
    ensures AllUnder(m, PutWord(w, width, m, pen, text, at, end).done)
    decreases end - at
  {
    if at < end { PutWordUnder(w, width, m, PutGlyph(w, width, m, pen, text[at], at), text, at + 1, end); }
  }

  lemma {:induction false} PutRestUnder(w: CellWidth, width: nat, m: Margin, pen: Pen, text: string, at: nat, end: nat)
    requires at <= end <= |text| && AllUnder(m, pen.done)
    ensures AllUnder(m, PutRest(w, width, m, pen, text, at, end).done)
    decreases end - at
  {
    var start := NextWord(text, at, end);
    if start < end {
      var stop := WordEnd(text, start, end);
      var begun := StartWord(w, width, m, pen, at, Cells(w, text[start..stop]));
      PutWordUnder(w, width, m, begun, text, start, stop);
      PutRestUnder(w, width, m, PutWord(w, width, m, begun, text, start, stop), text, stop, end);
    }
  }

  /** How many of the n blanks a source line starts with are repeated in front of its rendered lines: all or none. */
  function Hanging(w: CellWidth, width: nat, text: string, at: nat, first: nat): nat
    requires at <= first <= |text|
  {
    if Cells(w, text[at..first]) + 4 <= Max(width, 1) then first - at else 0
  }

  /**
   * A rendered line that shows something of the source line at `at`, whose first word starts at `first`: it starts
   * with the blanks that line starts with, all mapped to the line's first character, if they leave four cells, and
   * otherwise with none of them; then come its own characters, from the first word on.
   */
  ghost predicate HangsUnder(w: CellWidth, width: nat, text: string, line: WrappedLine, body: seq<Cell>,
                             at: nat, first: nat)
    requires at <= first <= |text|
  {
    var n := Hanging(w, width, text, at, first);
    && line.text == text[at..at + n] + Glyphs(body)
    && line.sources == seq(n, _ => at) + Sources(body)
    && body != [] && first <= body[0].source
  }

  ghost predicate AllHang(w: CellWidth, width: nat, text: string, segments: seq<Segment>, at: nat)
    requires at <= |text|
  {
    var first := NextWord(text, at, LineEnd(text, at));
    forall k :: 0 <= k < |segments| && segments[k].body != [] ==>
      segments[k].origin == at && HangsUnder(w, width, text, Render(segments[k]), segments[k].body, at, first)
  }

  lemma WrapLineUnder(w: CellWidth, width: nat, text: string, at: nat, k: nat)
    requires at <= |text| && k < |WrapLine(w, width, text, at, LineEnd(text, at))|
    ensures var s := WrapLine(w, width, text, at, LineEnd(text, at))[k];
      s.body != [] ==> s.origin == at && s.indent == IndentOf(w, width, text, at, LineEnd(text, at))
  {
    hide PutRest, IndentOf;
    var end := LineEnd(text, at);
    var m := Margin(at, IndentOf(w, width, text, at, end));
    PutRestUnder(w, width, m, Pen([], []), text, NextWord(text, at, end), end);
  }

  lemma WrapLineHangs(w: CellWidth, width: nat, text: string, at: nat)
    requires at <= |text| && (at == 0 || text[at - 1] == '\n')
    ensures AllHang(w, width, text, WrapLine(w, Max(width, 1), text, at, LineEnd(text, at)), at)
  {
    hide WrapLine, IndentOf, Hanging, Max;
    var end, first := LineEnd(text, at), NextWord(text, at, LineEnd(text, at));
    var line := WrapLine(w, Max(width, 1), text, at, end);
    WrapLineLossless(w, Max(width, 1), text, at, end);
    IndentIs(w, width, text, at, end);
    forall k | 0 <= k < |line| && line[k].body != []
      ensures line[k].origin == at && HangsUnder(w, width, text, Render(line[k]), line[k].body, at, first)
    {
      WrapLineUnder(w, Max(width, 1), text, at, k);
      FlatAt(line, k, 0);
      NotLeading(text, line[k].body[0], at, first);
    }
  }

  lemma IndentIs(w: CellWidth, width: nat, text: string, at: nat, end: nat)
    requires at <= end <= |text|
    ensures var first := NextWord(text, at, end);
      var n := Hanging(w, width, text, at, first);
      n <= first - at && IndentOf(w, Max(width, 1), text, at, end) == text[at..at + n] && |text[at..at + n]| == n
  {
  }

  /** No cell stands for a blank the source line starts with. */
  lemma NotLeading(text: string, c: Cell, at: nat, first: nat)
    requires at <= first <= |text| && at <= c.source && Faithful(text, c) && (at == 0 || text[at - 1] == '\n')
    requires forall i :: at <= i < first ==> IsWhitespace(text[i])
    ensures first <= c.source
  {
  }

  lemma {:induction false} WrapFromHangs(w: CellWidth, width: nat, text: string, at: nat, k: nat)
    requires at <= |text| && (at == 0 || at == |text| || text[at - 1] == '\n')
    requires k < |WrapFrom(w, Max(width, 1), text, at)|
    ensures var s := WrapFrom(w, Max(width, 1), text, at)[k];
      s.body == [] || HangsInText(w, width, text, Render(s), s.body)
    decreases |text| - at
  {
    hide WrapLine, LineStart, HangsUnder, Lossless, Max, HangsInText;
    var end, next := LineEnd(text, at), NextLine(text, at);
    var line, rest := WrapLine(w, Max(width, 1), text, at, end), WrapFrom(w, Max(width, 1), text, next);
    WrapFromStep(w, Max(width, 1), text, at);
    if k < |line| {
      WrapLineHangs(w, width, text, at);
      if line[k].body != [] { LineHangsInText(w, width, text, at, k); }
    } else {
      WrapFromHangs(w, width, text, next, k - |line|);
    }
  }

  /** A line hangs under the source line its first own character is from. */
  ghost predicate HangsInText(w: CellWidth, width: nat, text: string, line: WrappedLine, body: seq<Cell>) {
    && body != [] && body[0].source < |text|
    && var at := LineStart(text, body[0].source);
       HangsUnder(w, width, text, line, body, at, NextWord(text, at, LineEnd(text, at)))
  }

  lemma LineHangsInText(w: CellWidth, width: nat, text: string, at: nat, k: nat)
    requires at < |text| && (at == 0 || text[at - 1] == '\n')
    requires var line := WrapLine(w, Max(width, 1), text, at, LineEnd(text, at));
      k < |line| && line[k].body != [] && AllHang(w, width, text, line, at)
    ensures var s := WrapLine(w, Max(width, 1), text, at, LineEnd(text, at))[k];
      HangsInText(w, width, text, Render(s), s.body)
  {
    hide WrapLine, HangsUnder;
    var end := LineEnd(text, at);
    var line := WrapLine(w, Max(width, 1), text, at, end);
    WrapLineLossless(w, Max(width, 1), text, at, end);
    FlatAt(line, k, 0);
    SameLine(text, at, line[k].body[0].source);
  }

  /**
   * Every rendered line that shows anything starts with exactly the blanks its source line starts with, when those
   * leave four cells of the width, and with none of them otherwise; what follows is its own characters. Lines that
   * show nothing are empty.
   */
  lemma LinesHangUnderTheirIndent(w: CellWidth, width: nat, text: string, k: nat)
    requires k < |WrapText(w, width, text)|
    ensures var s := WrapText(w, width, text)[k];
      if s.body == [] then Render(s) == WrappedLine("", []) else HangsInText(w, width, text, Render(s), s.body)
  {
    WrapIsLossless(w, width, text);
    var s := WrapText(w, width, text)[k];
    assert Shaped(text, s, 0, |text|);
    hide HangsInText;
    if s.body != [] { WrapFromHangs(w, width, text, 0, k); }
  }

  // ---- Lines fit --------------------------------------------------------------------------

  function LineCells(w: CellWidth, s: Segment): nat { Cells(w, Render(s).text) }

  lemma LineCellsSplit(w: CellWidth, s: Segment)
    ensures LineCells(w, s) == Cells(w, s.indent) + BodyWidth(w, s.body)
  {
    CellsConcat(w, s.indent, Glyphs(s.body));
  }

  ghost predicate Fits(w: CellWidth, width: nat, segments: seq<Segment>) {
    forall i :: 0 <= i < |segments| ==> LineCells(w, segments[i]) <= width
  }

  /** No character is wider than two cells, and a space is one. */
  ghost predicate TerminalWidths(w: CellWidth) {
    w(' ') == 1 && forall c :: w(c) <= 2
  }

  /** Every character that is not blank fits on a line by itself. */
  ghost predicate GlyphsFit(w: CellWidth, width: nat, text: string) {
    forall i :: 0 <= i < |text| && !IsWhitespace(text[i]) ==> w(text[i]) <= width
  }

  ghost predicate PenFits(w: CellWidth, width: nat, m: Margin, pen: Pen) {
    && Fits(w, width, pen.done)
    && (m.indent == "" || Cells(w, m.indent) + 2 <= width)
    && Cells(w, m.indent) + BodyWidth(w, pen.body) <= width
  }

  lemma FlushFits(w: CellWidth, width: nat, m: Margin, pen: Pen)
    requires PenFits(w, width, m, pen)
    ensures PenFits(w, width, m, Flush(m, pen))
  {
    LineCellsSplit(w, Segment(m.origin, m.indent, pen.body));
  }

  lemma {:induction false} PutWordFits(w: CellWidth, width: nat, m: Margin, pen: Pen, text: string, at: nat, end: nat)
    requires at <= end <= |text| && TerminalWidths(w) && PenFits(w, width, m, pen) && GlyphsFit(w, width, text)
    requires forall i :: at <= i < end ==> !IsWhitespace(text[i])
    ensures PenFits(w, width, m, PutWord(w, width, m, pen, text, at, end))
    decreases end - at
  {
    if at < end {
      FlushFits(w, width, m, pen);
      BodyPush(w, pen.body, Cell(text[at], at));
      BodyPush(w, [], Cell(text[at], at));
      PutWordFits(w, width, m, PutGlyph(w, width, m, pen, text[at], at), text, at + 1, end);
    }
  }

  lemma {:induction false} PutRestFits(w: CellWidth, width: nat, m: Margin, pen: Pen, text: string, at: nat, end: nat)
    requires at <= end <= |text| && TerminalWidths(w) && PenFits(w, width, m, pen) && GlyphsFit(w, width, text)
    ensures PenFits(w, width, m, PutRest(w, width, m, pen, text, at, end))
    decreases end - at
  {
    var start := NextWord(text, at, end);
    if start < end {
      var stop := WordEnd(text, start, end);
      var begun := StartWord(w, width, m, pen, at, Cells(w, text[start..stop]));
      FlushFits(w, width, m, pen);
      BodyPush(w, pen.body, Cell(' ', at));
      PutWordFits(w, width, m, begun, text, start, stop);
      PutRestFits(w, width, m, PutWord(w, width, m, begun, text, start, stop), text, stop, end);
    }
  }

  lemma {:induction false} WrapFromFits(w: CellWidth, width: nat, text: string, at: nat)
    requires at <= |text| && TerminalWidths(w) && GlyphsFit(w, width, text)
    ensures Fits(w, width, WrapFrom(w, width, text, at))
    decreases |text| - at
  {
    if at < |text| {
      var end, first := LineEnd(text, at), NextWord(text, at, LineEnd(text, at));
      var m := Margin(at, IndentOf(w, width, text, at, end));
      PutRestFits(w, width, m, Pen([], []), text, first, end);
      FlushFits(w, width, m, PutRest(w, width, m, Pen([], []), text, first, end));
      WrapFromFits(w, width, text, NextLine(text, at));
    }
  }

  lemma {:induction false} FlatHas(segments: seq<Segment>, c: Cell)
    requires c in Flat(segments)
    ensures exists i :: 0 <= i < |segments| && c in segments[i].body
  {
    var last := |segments| - 1;
    if c in segments[last].body {
      assert segments[last].body == segments[last].body;
    } else {
      FlatHas(segments[..last], c);
      var i :| 0 <= i < last && c in segments[..last][i].body;
      assert segments[i] == segments[..last][i];
    }
  }

  lemma BodyHolds(w: CellWidth, body: seq<Cell>, c: Cell)
    requires c in body
    ensures w(c.glyph) <= BodyWidth(w, body)
  {
    var k :| 0 <= k < |body| && body[k] == c;
    var s := Glyphs(body);
    assert s == s[..k] + ([s[k]] + s[k + 1..]);
    CellsConcat(w, s[..k], [s[k]] + s[k + 1..]);
    CellsConcat(w, [s[k]], s[k + 1..]);
  }

  /**
   * Every rendered line fits if and only if every character to be shown fits on a line by itself: always from two
   * cells up, and at one cell (the least the wrapper uses) as long as nothing is double-width.
   */
  lemma WrapFitsIff(w: CellWidth, width: nat, text: string)
    requires TerminalWidths(w)
    ensures Fits(w, Max(width, 1), WrapText(w, width, text)) <==> GlyphsFit(w, Max(width, 1), text)
    ensures width >= 2 ==> Fits(w, width, WrapText(w, width, text))
  {
    var lines := WrapText(w, width, text);
    if GlyphsFit(w, Max(width, 1), text) {
      WrapFromFits(w, Max(width, 1), text, 0);
      LineCellsSplit(w, Segment(0, "", []));
    } else {
      var k :| 0 <= k < |text| && !IsWhitespace(text[k]) && w(text[k]) > Max(width, 1);
      WrapIsLossless(w, width, text);
      FlatHas(lines, Cell(text[k], k));
      var i :| 0 <= i < |lines| && Cell(text[k], k) in lines[i].body;
      BodyHolds(w, lines[i].body, Cell(text[k], k));
      LineCellsSplit(w, lines[i]);
    }
  }

  // ---- What is dropped --------------------------------------------------------------------

  /** Where the source line of a position starts. */
  function LineStart(text: string, i: nat): (at: nat)
    requires i <= |text|
    ensures at <= i && (at == 0 || text[at - 1] == '\n')
    ensures forall k :: at <= k < i ==> text[k] != '\n'
  {
    if i == 0 || text[i - 1] == '\n' then i else LineStart(text, i - 1)
  }

  /** What is left on the pen when the words of the source line at `at` run out. */
  function LastBody(w: CellWidth, width: nat, text: string, at: nat): seq<Cell>
    requires at <= |text|
  {
    var end := LineEnd(text, at);
    PutRest(w, width, Margin(at, IndentOf(w, width, text, at, end)), Pen([], []), text, NextWord(text, at, end),
      end).body
  }

  /** A character that was put on the pen shows unless it is in what is left there and that has no width. */
  lemma FinishMembers(w: CellWidth, m: Margin, pen: Pen, text: string, lo: nat, end: nat, i: nat)
    requires lo <= i < end <= |text| && Tracks(text, PenCells(pen), lo, end) && !IsWhitespace(text[i])
    ensures Cell(text[i], i) in Flat(FinishLine(w, m, pen, false)) <==>
      !(Cell(text[i], i) in pen.body && BodyWidth(w, pen.body) == 0)
  {
    hide BodyWidth, Flat;
    FlushKeepsCells(m, pen);
    var c := Cell(text[i], i);
    assert c in Flat(pen.done) + pen.body;
    forall j, k | 0 <= j < |Flat(pen.done)| && 0 <= k < |pen.body| ensures Flat(pen.done)[j] != pen.body[k] {
      assert PenCells(pen)[j].source < PenCells(pen)[|Flat(pen.done)| + k].source;
    }
  }

  lemma LineMembers(w: CellWidth, width: nat, text: string, at: nat, i: nat)
    requires at <= i < |text| && i < LineEnd(text, at) && (at == 0 || text[at - 1] == '\n') && !IsWhitespace(text[i])
    ensures Cell(text[i], i) in Flat(WrapLine(w, width, text, at, LineEnd(text, at))) <==>
      !(Cell(text[i], i) in LastBody(w, width, text, at) && BodyWidth(w, LastBody(w, width, text, at)) == 0)
  {
    hide PutRest, Tracks, Hung, FinishLine, BodyWidth, Flat;
    var end := LineEnd(text, at);
    var m, first := Margin(at, IndentOf(w, width, text, at, end)), NextWord(text, at, end);
    NothingTracked(text, m, at, first, end);
    PutRestTracks(w, width, m, Pen([], []), text, first, end, at);
    FinishMembers(w, m, PutRest(w, width, m, Pen([], []), text, first, end), text, at, end, i);
  }

  lemma NothingTracked(text: string, m: Margin, at: nat, first: nat, end: nat)
    requires at <= first <= end <= |text| && (at == 0 || text[at - 1] == '\n') && m.origin == at
    requires forall i :: at <= i < first ==> IsWhitespace(text[i])
    requires m.indent == "" || m.indent == text[at..first]
    ensures Tracks(text, PenCells(Pen([], [])), at, first) && Hung(text, m, Pen([], []), at, end)
      && m.origin + |m.indent| <= first
  {
  }

  lemma {:induction false} FromMembers(w: CellWidth, width: nat, text: string, at: nat, i: nat)
    requires at <= i < |text| && (at == 0 || text[at - 1] == '\n') && !IsWhitespace(text[i])
    ensures Cell(text[i], i) in Flat(WrapFrom(w, width, text, at)) <==>
      !(Cell(text[i], i) in LastBody(w, width, text, LineStart(text, i))
        && BodyWidth(w, LastBody(w, width, text, LineStart(text, i))) == 0)
    decreases |text| - at
  {
    hide LastBody, WrapLine, Flat;
    var end, next := LineEnd(text, at), NextLine(text, at);
    WrapFromStep(w, width, text, at);
    WrapLineLossless(w, width, text, at, end);
    WrapFromLossless(w, width, text, next);
    FlatConcat(WrapLine(w, width, text, at, end), WrapFrom(w, width, text, next));
    if i < end {
      assert LineStart(text, i) == at;
      LineMembers(w, width, text, at, i);
    } else {
      assert i >= next;
      FromMembers(w, width, text, next, i);
    }
  }

  /**
   * A character is missing exactly when it is among what is left on the pen at the end of its source line and
   * nothing left there has width.
   */
  lemma DroppedIff(w: CellWidth, width: nat, text: string, i: nat)
    requires i < |text| && !IsWhitespace(text[i])
    ensures var body := LastBody(w, Max(width, 1), text, LineStart(text, i));
      Cell(text[i], i) !in Flat(WrapText(w, width, text)) <==> Cell(text[i], i) in body && BodyWidth(w, body) == 0
  {
    FromMembers(w, Max(width, 1), text, 0, i);
    FlatPush([], Segment(0, "", []));
  }

  /** Nothing from p to the end of the line has width. */
  ghost predicate Weightless(w: CellWidth, text: string, p: nat, end: nat)
    requires end <= |text|
  {
    forall i :: p <= i < end && !IsWhitespace(text[i]) ==> w(text[i]) == 0
  }

  /** A run without width can only begin a line at the start of a word, or after a character too wide for the line. */
  ghost predicate CanBreak(w: CellWidth, width: nat, text: string, at: nat, p: nat)
    requires at <= p < |text|
  {
    !IsWhitespace(text[p]) && (p == at || IsWhitespace(text[p - 1]) || w(text[p - 1]) > width)
  }

  /** The source line at `at` ends in a word without width, or in marks on a character too wide for the line. */
  ghost predicate LooseEnd(w: CellWidth, width: nat, text: string, at: nat)
    requires at <= |text|
  {
    exists p :: at <= p < LineEnd(text, at) && CanBreak(w, width, text, at, p)
      && Weightless(w, text, p, LineEnd(text, at))
  }

  ghost predicate HasLooseEnd(w: CellWidth, width: nat, text: string) {
    exists at :: 0 <= at < |text| && (at == 0 || text[at - 1] == '\n') && LooseEnd(w, width, text, at)
  }

  /** The line on the pen shows something, or holds only what comes after a place where it can break. */
  ghost predicate Weighty(w: CellWidth, width: nat, text: string, origin: nat, pen: Pen, pos: nat)
    requires origin <= pos <= |text|
  {
    pen.body == [] || BodyWidth(w, pen.body) > 0
    || exists p :: origin <= p < pos && CanBreak(w, width, text, origin, p) && Weightless(w, text, p, pos)
  }

  /** Only a character too wide for the line makes it too long. */
  ghost predicate Within(w: CellWidth, width: nat, text: string, m: Margin, pen: Pen, pos: nat)
    requires pos <= |text|
  {
    && (m.indent == "" || Cells(w, m.indent) + 2 <= width)
    && (Cells(w, m.indent) + BodyWidth(w, pen.body) > width ==> pos > 0 && w(text[pos - 1]) > width)
  }

  lemma PutGlyphWeighs(w: CellWidth, width: nat, m: Margin, pen: Pen, text: string, at: nat)
    requires m.origin <= at < |text| && TerminalWidths(w) && !IsWhitespace(text[at])
    requires Weighty(w, width, text, m.origin, pen, at)
    requires Cells(w, m.indent) + BodyWidth(w, pen.body) > width ==> at > 0 && w(text[at - 1]) > width
    requires m.indent == "" || Cells(w, m.indent) + 2 <= width
    requires pen.body == [] ==> CanBreak(w, width, text, m.origin, at)
    ensures var after := PutGlyph(w, width, m, pen, text[at], at);
      Weighty(w, width, text, m.origin, after, at + 1) && Within(w, width, text, m, after, at + 1) && after.body != []
  {
    var after := PutGlyph(w, width, m, pen, text[at], at);
    NoWidth(w);
    BodyPush(w, pen.body, Cell(text[at], at));
    BodyPush(w, [], Cell(text[at], at));
    assert Cells(w, "") == 0;
    if BodyWidth(w, after.body) == 0 {
      if pen.body == [] || BodyWidth(w, pen.body) > 0 {
        assert CanBreak(w, width, text, m.origin, at);
        assert Weightless(w, text, at, at + 1);
      } else {
        var p :| m.origin <= p < at && CanBreak(w, width, text, m.origin, p) && Weightless(w, text, p, at);
        assert Weightless(w, text, p, at + 1);
      }
    }
  }

  lemma {:induction false} PutWordWeighs(w: CellWidth, width: nat, m: Margin, pen: Pen, text: string, at: nat, end: nat)
    requires m.origin <= at <= end <= |text| && TerminalWidths(w) && forall i :: at <= i < end ==>
      !IsWhitespace(text[i])
    requires Weighty(w, width, text, m.origin, pen, at) && Within(w, width, text, m, pen, at)
    requires pen.body == [] && at < end ==> CanBreak(w, width, text, m.origin, at)
    ensures var after := PutWord(w, width, m, pen, text, at, end);
      Weighty(w, width, text, m.origin, after, end) && Within(w, width, text, m, after, end)
        && (at < end ==> after.body != [])
    decreases end - at
  {
    if at < end {
      hide Weighty, PutGlyph, CanBreak, Cells, BodyWidth;
      PutGlyphWeighs(w, width, m, pen, text, at);
      PutWordWeighs(w, width, m, PutGlyph(w, width, m, pen, text[at], at), text, at + 1, end);
    }
  }

  lemma StartWordWeighs(w: CellWidth, width: nat, m: Margin, pen: Pen, text: string, gap: nat, start: nat,
                        wordWidth: nat)
    requires m.origin <= gap <= start < |text| && w(' ') == 1 && forall i :: gap <= i < start ==> IsWhitespace(text[i])
    requires Weighty(w, width, text, m.origin, pen, gap) && Within(w, width, text, m, pen, gap)
    ensures var after := StartWord(w, width, m, pen, gap, wordWidth);
      Weighty(w, width, text, m.origin, after, start) && Within(w, width, text, m, after, start)
  {
    NoWidth(w);
    BodyPush(w, pen.body, Cell(' ', gap));
    assert Cells(w, "") == 0;
    if pen.body != [] && BodyWidth(w, pen.body) == 0 {
      var p :| m.origin <= p < gap && CanBreak(w, width, text, m.origin, p) && Weightless(w, text, p, gap);
      assert Weightless(w, text, p, start);
    }
  }

  lemma {:induction false} PutRestWeighs(w: CellWidth, width: nat, m: Margin, pen: Pen, text: string, at: nat, end: nat)
    requires m.origin <= at <= end <= |text| && TerminalWidths(w)
    requires Weighty(w, width, text, m.origin, pen, at) && Within(w, width, text, m, pen, at)
    requires at == m.origin || at == end || IsWhitespace(text[at]) || IsWhitespace(text[at - 1])
    ensures Weighty(w, width, text, m.origin, PutRest(w, width, m, pen, text, at, end), end)
    decreases end - at
  {
    hide Weighty, Within, PutWord, StartWord;
    var start := NextWord(text, at, end);
    if start == end {
      WeightyStays(w, width, text, m.origin, pen, at, end);
    } else {
      var stop := WordEnd(text, start, end);
      var begun := StartWord(w, width, m, pen, at, Cells(w, text[start..stop]));
      StartWordWeighs(w, width, m, pen, text, at, start, Cells(w, text[start..stop]));
      assert CanBreak(w, width, text, m.origin, start);
      PutWordWeighs(w, width, m, begun, text, start, stop);
      PutRestWeighs(w, width, m, PutWord(w, width, m, begun, text, start, stop), text, stop, end);
    }
  }

  lemma WeightyStays(w: CellWidth, width: nat, text: string, origin: nat, pen: Pen, at: nat, end: nat)
    requires origin <= at <= end <= |text| && Weighty(w, width, text, origin, pen, at)
    requires forall i :: at <= i < end ==> IsWhitespace(text[i])
    ensures Weighty(w, width, text, origin, pen, end)
  {
    if pen.body != [] && BodyWidth(w, pen.body) == 0 {
      var p :| origin <= p < at && CanBreak(w, width, text, origin, p) && Weightless(w, text, p, at);
      assert Weightless(w, text, p, end);
    }
  }

  lemma LastBodyWeighs(w: CellWidth, width: nat, text: string, at: nat)
    requires TerminalWidths(w) && at <= |text|
    ensures LastBody(w, width, text, at) != [] && BodyWidth(w, LastBody(w, width, text, at)) == 0 ==>
      LooseEnd(w, width, text, at)
  {
    var end := LineEnd(text, at);
    var m, first := Margin(at, IndentOf(w, width, text, at, end)), NextWord(text, at, end);
    NoWidth(w);
    PutRestWeighs(w, width, m, Pen([], []), text, first, end);
  }

  /** Where no source line has a loose end, every character that is not blank is shown, with or without width. */
  lemma NothingIsDropped(w: CellWidth, width: nat, text: string)
    requires TerminalWidths(w) && !HasLooseEnd(w, Max(width, 1), text)
    ensures Covers(text, Flat(WrapText(w, width, text)), 0, |text|)
  {
    hide LastBody, WrapText, Flat, LooseEnd;
    forall i | 0 <= i < |text| && !IsWhitespace(text[i]) ensures Cell(text[i], i) in Flat(WrapText(w, width, text)) {
      DroppedIff(w, width, text, i);
      LastBodyWeighs(w, Max(width, 1), text, LineStart(text, i));
      assert !LooseEnd(w, Max(width, 1), text, LineStart(text, i));
    }
  }

  lemma {:induction false} PutZeros(w: CellWidth, width: nat, m: Margin, pen: Pen, text: string, at: nat, end: nat)
    requires at <= end <= |text| && BodyWidth(w, pen.body) == 0 && forall i :: at <= i < end ==> w(text[i]) == 0
    ensures var after := PutWord(w, width, m, pen, text, at, end);
      BodyWidth(w, after.body) == 0 && (pen.body != [] || at < end ==> after.body != [])
    decreases end - at
  {
    if at < end {
      BodyPush(w, pen.body, Cell(text[at], at));
      PutZeros(w, width, m, PutGlyph(w, width, m, pen, text[at], at), text, at + 1, end);
    }
  }

  /** On lines of one cell, a run without width that can begin a line does, and has it to itself. */
  lemma {:induction false} WordDrops(w: CellWidth, m: Margin, pen: Pen, text: string, at: nat, p: nat, end: nat)
    requires m.indent == "" && at <= p < end <= |text| && forall i :: p <= i < end ==> w(text[i]) == 0
    requires if at == p then BodyWidth(w, pen.body) != 1 else w(text[p - 1]) > 1
    ensures var after := PutWord(w, 1, m, pen, text, at, end); BodyWidth(w, after.body) == 0 && after.body != []
    decreases end - at
  {
    var next := PutGlyph(w, 1, m, pen, text[at], at);
    assert Cells(w, "") == 0;
    NoWidth(w);
    BodyPush(w, pen.body, Cell(text[at], at));
    BodyPush(w, [], Cell(text[at], at));
    if at == p { PutZeros(w, 1, m, next, text, at + 1, end); } else { WordDrops(w, m, next, text, at + 1, p, end); }
  }

  lemma {:induction false} RestStaysDropped(w: CellWidth, m: Margin, pen: Pen, text: string, at: nat, end: nat)
    requires at <= end <= |text| && Weightless(w, text, at, end) && BodyWidth(w, pen.body) == 0 && pen.body != []
    ensures var after := PutRest(w, 1, m, pen, text, at, end); BodyWidth(w, after.body) == 0 && after.body != []
    decreases end - at
  {
    var start := NextWord(text, at, end);
    if start < end {
      var stop := WordEnd(text, start, end);
      PutZeros(w, 1, m, pen, text, start, stop);
      RestStaysDropped(w, m, PutWord(w, 1, m, pen, text, start, stop), text, stop, end);
    }
  }

  lemma {:induction false} RestDrops(w: CellWidth, m: Margin, pen: Pen, text: string, at: nat, p: nat, end: nat)
    requires m.indent == "" && m.origin <= at <= p < end <= |text|
    requires CanBreak(w, 1, text, m.origin, p) && Weightless(w, text, p, end)
    ensures var after := PutRest(w, 1, m, pen, text, at, end); BodyWidth(w, after.body) == 0 && after.body != []
    decreases end - at
  {
    var start := NextWord(text, at, end);
    var stop := WordEnd(text, start, end);
    var begun := StartWord(w, 1, m, pen, at, Cells(w, text[start..stop]));
    assert Cells(w, "") == 0;
    NoWidth(w);
    assert BodyWidth(w, begun.body) == 0;
    if p < stop {
      WordDrops(w, m, begun, text, start, p, stop);
      RestStaysDropped(w, m, PutWord(w, 1, m, begun, text, start, stop), text, stop, end);
    } else {
      RestDrops(w, m, PutWord(w, 1, m, begun, text, start, stop), text, stop, p, end);
    }
  }

  /** What is left on the pen without width is something the line should show. */
  lemma LeftOverIsText(w: CellWidth, width: nat, text: string, at: nat)
    requires at <= |text| && (at == 0 || text[at - 1] == '\n') && w(' ') == 1
    requires LastBody(w, width, text, at) != [] && BodyWidth(w, LastBody(w, width, text, at)) == 0
    ensures exists i ::
      at <= i < LineEnd(text, at) && !IsWhitespace(text[i]) && Cell(text[i], i) in LastBody(w, width, text, at)
  {
    var end := LineEnd(text, at);
    var m, first := Margin(at, IndentOf(w, width, text, at, end)), NextWord(text, at, end);
    var pen := PutRest(w, width, m, Pen([], []), text, first, end);
    NothingTracked(text, m, at, first, end);
    PutRestTracks(w, width, m, Pen([], []), text, first, end, at);
    var c := pen.body[0];
    assert PenCells(pen)[|Flat(pen.done)|] == c;
    BodyHolds(w, pen.body, c);
    assert Faithful(text, c);
    assert Cell(text[c.source], c.source) in LastBody(w, width, text, at);
  }

  lemma LooseEndDrops(w: CellWidth, text: string, at: nat)
    requires TerminalWidths(w) && at <= |text| && (at == 0 || text[at - 1] == '\n') && LooseEnd(w, 1, text, at)
    ensures !Covers(text, Flat(WrapText(w, 1, text)), 0, |text|)
  {
    hide WrapText, Flat, Covers;
    LooseEndIsLeft(w, text, at);
    LeftOverIsText(w, 1, text, at);
    var i :| at <= i < LineEnd(text, at) && !IsWhitespace(text[i]) && Cell(text[i], i) in LastBody(w, 1, text, at);
    SameLine(text, at, i);
    DroppedIff(w, 1, text, i);
    NotCovered(text, Flat(WrapText(w, 1, text)), i);
  }

  lemma NotCovered(text: string, cells: seq<Cell>, i: nat)
    requires i < |text| && !IsWhitespace(text[i]) && Cell(text[i], i) !in cells
    ensures !Covers(text, cells, 0, |text|)
  {
  }

  lemma {:induction false} SameLine(text: string, at: nat, i: nat)
    requires at <= i <= |text| && i <= LineEnd(text, at) && (at == 0 || text[at - 1] == '\n')
    ensures LineStart(text, i) == at
    decreases i
  {
    if at < i { SameLine(text, at, i - 1); }
  }

  lemma LooseEndIsLeft(w: CellWidth, text: string, at: nat)
    requires TerminalWidths(w) && at <= |text| && LooseEnd(w, 1, text, at)
    ensures LastBody(w, 1, text, at) != [] && BodyWidth(w, LastBody(w, 1, text, at)) == 0
  {
    var end := LineEnd(text, at);
    var m := Margin(at, IndentOf(w, 1, text, at, end));
    var p :| at <= p < end && CanBreak(w, 1, text, at, p) && Weightless(w, text, p, end);
    RestDrops(w, m, Pen([], []), text, NextWord(text, at, end), p, end);
  }

  /**
   * Wrapping keeps every character that is not blank at all widths if and only if no source line ends in a word
   * without width or in marks on a double-width character; at one cell, the least width there is, that is exact.
   */
  lemma NothingIsEverDroppedIff(w: CellWidth, text: string)
    requires TerminalWidths(w)
    ensures Covers(text, Flat(WrapText(w, 1, text)), 0, |text|) <==> !HasLooseEnd(w, 1, text)
    ensures (forall width: nat :: Covers(text, Flat(WrapText(w, width, text)), 0, |text|)) <==> !HasLooseEnd(w, 1, text)
  {
    hide Covers, Flat, WrapText, LooseEnd;
    if HasLooseEnd(w, 1, text) {
      var at :| 0 <= at < |text| && (at == 0 || text[at - 1] == '\n') && LooseEnd(w, 1, text, at);
      LooseEndDrops(w, text, at);
    } else {
      forall width: nat ensures Covers(text, Flat(WrapText(w, width, text)), 0, |text|) {
        if HasLooseEnd(w, Max(width, 1), text) { NarrowerIsLooser(w, Max(width, 1), text); }
        NothingIsDropped(w, width, text);
      }
    }
  }

  lemma NarrowerIsLooser(w: CellWidth, width: nat, text: string)
    requires width >= 1 && HasLooseEnd(w, width, text)
    ensures HasLooseEnd(w, 1, text)
  {
    var at :| 0 <= at < |text| && (at == 0 || text[at - 1] == '\n') && LooseEnd(w, width, text, at);
    var p :| at <= p < LineEnd(text, at) && CanBreak(w, width, text, at, p)
      && Weightless(w, text, p, LineEnd(text, at));
    assert CanBreak(w, 1, text, at, p);
    assert LooseEnd(w, 1, text, at);
  }

  // ---- Breaks are forced ------------------------------------------------------------------

  function WordCells(w: CellWidth, text: string, at: nat): nat
    requires at <= |text|
  {
    Cells(w, text[at..WordEnd(text, at, |text|)])
  }

  /** Line `s` ends before source position `p` because what comes next does not fit on it. */
  ghost predicate ForcedBreak(w: CellWidth, width: nat, text: string, s: Segment, p: nat) {
    0 < p < |text| &&
    if IsWhitespace(text[p - 1])
    then LineCells(w, s) + 1 + WordCells(w, text, p) > width
    else LineCells(w, s) + w(text[p]) > width
  }

  ghost predicate InWord(text: string, body: seq<Cell>, i: nat) {
    && i + 1 < |body| && body[i].source < |text| && body[i + 1].source < |text|
    && !IsWhitespace(text[body[i].source]) && !IsWhitespace(text[body[i + 1].source])
  }

  /** Once a line shows something, two of its characters are neighbours only if they were in the source. */
  ghost predicate Spaced(w: CellWidth, text: string, body: seq<Cell>) {
    && (forall i :: 0 <= i < |body| ==> body[i].source < |text|)
    && (forall i :: 0 <= i < |body| - 1 && BodyWidth(w, body[..i + 1]) > 0 && InWord(text, body, i)
                    ==> body[i + 1].source == body[i].source + 1)
  }

  /** Source position at which line `k` was followed by the next one. */
  function After(pen: Pen, k: nat, pos: nat): nat {
    if k + 1 < |pen.done| && pen.done[k + 1].body != [] then pen.done[k + 1].body[0].source
    else if pen.body != [] then pen.body[0].source else pos
  }

  ghost predicate Tidy(w: CellWidth, width: nat, text: string, m: Margin, pen: Pen, pos: nat) {
    && Spaced(w, text, pen.body)
    && (forall k :: 0 <= k < |pen.done| ==>
          && pen.done[k].body != [] && pen.done[k].origin == m.origin && Spaced(w, text, pen.done[k].body)
          && ForcedBreak(w, width, text, pen.done[k], After(pen, k, pos)))
  }

  /** Appending the character at `pos` keeps the line spaced. */
  ghost predicate Joined(w: CellWidth, text: string, body: seq<Cell>, pos: nat)
    requires Spaced(w, text, body)
  {
    || body == [] || BodyWidth(w, body) == 0
    || IsWhitespace(text[body[|body| - 1].source]) || body[|body| - 1].source + 1 == pos
  }

  lemma SpacedPush(w: CellWidth, text: string, body: seq<Cell>, c: Cell)
    requires Spaced(w, text, body) && c.source < |text|
    requires Joined(w, text, body, c.source) || IsWhitespace(text[c.source])
    ensures Spaced(w, text, body + [c])
  {
    var after := body + [c];
    forall i | 0 <= i < |after| - 1 && BodyWidth(w, after[..i + 1]) > 0 && InWord(text, after, i)
      ensures after[i + 1].source == after[i].source + 1
    {
      assert after[..i + 1] == body[..i + 1];
      if i == |body| - 1 { assert body[..i + 1] == body; }
    }
  }

  lemma TidyFlush(w: CellWidth, width: nat, text: string, m: Margin, pen: Pen, before: nat, pos: nat)
    requires Tidy(w, width, text, m, pen, before) && pen.body != []
    requires ForcedBreak(w, width, text, Segment(m.origin, m.indent, pen.body), pos)
    ensures Tidy(w, width, text, m, Flush(m, pen), pos)
  {
    var after := Flush(m, pen);
    forall k | 0 <= k < |pen.done|
      ensures After(after, k, pos) == After(pen, k, before) && after.done[k] == pen.done[k]
    {
    }
  }

  lemma TidyPush(w: CellWidth, width: nat, text: string, m: Margin, pen: Pen, c: char, pos: nat)
    requires Tidy(w, width, text, m, pen, pos) && pos < |text| && Joined(w, text, pen.body, pos)
    ensures Tidy(w, width, text, m, Pen(pen.done, pen.body + [Cell(c, pos)]), pos + 1)
  {
    SpacedPush(w, text, pen.body, Cell(c, pos));
    var after := Pen(pen.done, pen.body + [Cell(c, pos)]);
    forall k | 0 <= k < |pen.done| ensures After(after, k, pos + 1) == After(pen, k, pos) {
    }
  }

  /** A character can only overflow its line in the middle of a word. */
  ghost predicate NoOverflowAtStart(w: CellWidth, width: nat, text: string, m: Margin, body: seq<Cell>, at: nat,
                                    end: nat)
    requires at <= end <= |text|
  {
    || (at > 0 && !IsWhitespace(text[at - 1]))
    || BodyWidth(w, body) == 0
    || Cells(w, m.indent) + BodyWidth(w, body) + Cells(w, text[at..end]) <= width
  }

  lemma PutGlyphTidy(w: CellWidth, width: nat, m: Margin, pen: Pen, text: string, at: nat, end: nat)
    requires at < end <= |text| && Tidy(w, width, text, m, pen, at) && Joined(w, text, pen.body, at)
    requires NoOverflowAtStart(w, width, text, m, pen.body, at, end)
    ensures var after := PutGlyph(w, width, m, pen, text[at], at);
      Tidy(w, width, text, m, after, at + 1) && after.body != [] && after.body[|after.body| - 1] == Cell(text[at], at)
  {
    var used := BodyWidth(w, pen.body);
    if used > 0 && Cells(w, m.indent) + used + w(text[at]) > width {
      assert text[at..end][0] == text[at];
      LineCellsSplit(w, Segment(m.origin, m.indent, pen.body));
      assert !(pen.body == []);
      TidyFlush(w, width, text, m, pen, at, at);
      TidyPush(w, width, text, m, Flush(m, pen), text[at], at);
    } else {
      TidyPush(w, width, text, m, pen, text[at], at);
    }
  }

  lemma {:induction false} PutWordTidy(w: CellWidth, width: nat, m: Margin, pen: Pen, text: string, at: nat, end: nat)
    requires at <= end <= |text| && Tidy(w, width, text, m, pen, at) && Joined(w, text, pen.body, at)
    requires NoOverflowAtStart(w, width, text, m, pen.body, at, end)
    requires forall i :: at <= i < end ==> !IsWhitespace(text[i])
    requires at == end ==> pen.body != []
    ensures var after := PutWord(w, width, m, pen, text, at, end);
      Tidy(w, width, text, m, after, end) && Joined(w, text, after.body, end) && after.body != []
    decreases end - at
  {
    if at < end {
      PutGlyphTidy(w, width, m, pen, text, at, end);
      PutWordTidy(w, width, m, PutGlyph(w, width, m, pen, text[at], at), text, at + 1, end);
    }
  }

  lemma {:induction false} WordEndIsWordEnd(text: string, at: nat, end: nat)
    requires at <= end <= |text| && (end == |text| || IsWhitespace(text[end]))
    ensures WordEnd(text, at, end) == WordEnd(text, at, |text|)
    decreases end - at
  {
    if at < end && !IsWhitespace(text[at]) { WordEndIsWordEnd(text, at + 1, end); }
  }

  lemma StartWordTidy(w: CellWidth, width: nat, m: Margin, pen: Pen, text: string, gap: nat, start: nat, end: nat)
    requires gap <= start < end <= |text| && w(' ') == 1 && Tidy(w, width, text, m, pen, gap)
    requires pen.body == [] ==> pen.done == []
    requires pen.body != [] ==> gap < start
    requires forall i :: gap <= i < start ==> IsWhitespace(text[i])
    requires end == |text| || IsWhitespace(text[end])
    ensures var stop := WordEnd(text, start, end);
      var after := StartWord(w, width, m, pen, gap, Cells(w, text[start..stop]));
      && Tidy(w, width, text, m, after, start) && Joined(w, text, after.body, start)
      && NoOverflowAtStart(w, width, text, m, after.body, start, stop)
  {
    WordEndIsWordEnd(text, start, end);
    var used, wordWidth := BodyWidth(w, pen.body), WordCells(w, text, start);
    if used > 0 {
      var line := Segment(m.origin, m.indent, pen.body);
      LineCellsSplit(w, line);
      if Cells(w, m.indent) + used + 1 + wordWidth > width {
        TidyFlush(w, width, text, m, pen, gap, start);
      } else {
        SpacedPush(w, text, pen.body, Cell(' ', gap));
        BodyPush(w, pen.body, Cell(' ', gap));
      }
    }
  }

  lemma {:induction false} PutRestTidy(w: CellWidth, width: nat, m: Margin, pen: Pen, text: string, at: nat, end: nat)
    requires at <= end <= |text| && w(' ') == 1 && Tidy(w, width, text, m, pen, at)
    requires pen.body == [] ==> pen.done == []
    requires pen.body != [] && at < end ==> IsWhitespace(text[at])
    requires end == |text| || IsWhitespace(text[end])
    ensures Tidy(w, width, text, m, PutRest(w, width, m, pen, text, at, end), end)
    decreases end - at
  {
    var start := NextWord(text, at, end);
    if start < end {
      var stop := WordEnd(text, start, end);
      var begun := StartWord(w, width, m, pen, at, Cells(w, text[start..stop]));
      StartWordTidy(w, width, m, pen, text, at, start, end);
      PutWordTidy(w, width, m, begun, text, start, stop);
      PutRestTidy(w, width, m, PutWord(w, width, m, begun, text, start, stop), text, stop, end);
    } else {
      forall k | 0 <= k < |pen.done| ensures After(pen, k, end) == After(pen, k, at) {
      }
    }
  }

  /** Between two rendered lines of one source line the break is forced, and each line is spaced. */
  ghost predicate Greedy(w: CellWidth, width: nat, text: string, segments: seq<Segment>) {
    && (forall k :: 0 <= k < |segments| ==> Spaced(w, text, segments[k].body))
    && (forall k :: 0 <= k < |segments| - 1 && segments[k].origin == segments[k + 1].origin ==>
          segments[k + 1].body != [] && ForcedBreak(w, width, text, segments[k], segments[k + 1].body[0].source))
  }

  /** Where the empty source lines start, read off the rendered lines that show nothing. */
  function BlankOrigins(segments: seq<Segment>): seq<nat> {
    if segments == [] then [] else
      var last := segments[|segments| - 1];
      BlankOrigins(segments[..|segments| - 1]) + (if last.body == [] then [last.origin] else [])
  }

  /** Where the empty source lines start. */
  function EmptyLines(text: string, at: nat): seq<nat>
    requires at <= |text|
    decreases |text| - at
  {
    if at == |text| then []
    else (if LineEnd(text, at) == at then [at] else []) + EmptyLines(text, NextLine(text, at))
  }

  lemma {:induction false} NoBlanks(segments: seq<Segment>)
    requires forall k :: 0 <= k < |segments| ==> segments[k].body != []
    ensures BlankOrigins(segments) == []
  {
    if segments != [] { NoBlanks(segments[..|segments| - 1]); }
  }

  lemma BlankPush(segments: seq<Segment>, s: Segment)
    ensures BlankOrigins(segments + [s]) == BlankOrigins(segments) + (if s.body == [] then [s.origin] else [])
  {
    assert (segments + [s])[..|segments|] == segments;
  }

  lemma {:induction false} BlankConcat(a: seq<Segment>, b: seq<Segment>)
    ensures BlankOrigins(a + b) == BlankOrigins(a) + BlankOrigins(b)
  {
    if b == [] {
      assert a + b == a;
    } else {
      hide BlankOrigins;
      var front, last := b[..|b| - 1], b[|b| - 1];
      BlankConcat(a, front);
      BlankPush(a + front, last);
      BlankPush(front, last);
      Assoc(a, front, [last]);
      assert front + [last] == b;
      Assoc(BlankOrigins(a), BlankOrigins(front), if last.body == [] then [last.origin] else []);
    }
  }

  lemma EmptyTidy(w: CellWidth, width: nat, text: string, m: Margin, pos: nat)
    ensures Tidy(w, width, text, m, Pen([], []), pos) && Spaced(w, text, [])
  {
  }

  lemma FinishGreedy(w: CellWidth, width: nat, text: string, m: Margin, pen: Pen, at: nat, end: nat)
    requires m.origin == at && Tidy(w, width, text, m, pen, end) && (at == end ==> pen == Pen([], []))
    ensures var line := FinishLine(w, m, pen, at == end);
      && Greedy(w, width, text, line)
      && BlankOrigins(line) == (if at == end then [at] else [])
      && forall k :: 0 <= k < |line| ==> line[k].origin == at
  {
    hide Spaced, ForcedBreak, BodyWidth, BlankOrigins;
    NoWidth(w);
    EmptyTidy(w, width, text, m, at);
    NoBlanks(pen.done);
    if BodyWidth(w, pen.body) > 0 {
      BlankPush(pen.done, Segment(m.origin, m.indent, pen.body));
      assert forall k :: 0 <= k < |pen.done| ==> ForcedBreak(w, width, text, pen.done[k], After(pen, k, end));
    } else if at == end {
      BlankPush(pen.done, Segment(m.origin, "", []));
    } else {
      assert forall k :: 0 <= k < |pen.done| ==> ForcedBreak(w, width, text, pen.done[k], After(pen, k, end));
    }
  }

  lemma WrapLineGreedy(w: CellWidth, width: nat, text: string, at: nat, end: nat)
    requires at <= end <= |text| && w(' ') == 1 && (end == |text| || IsWhitespace(text[end]))
    ensures var line := WrapLine(w, width, text, at, end);
      && Greedy(w, width, text, line)
      && BlankOrigins(line) == (if at == end then [at] else [])
      && forall k :: 0 <= k < |line| ==> line[k].origin == at
  {
    var m := Margin(at, IndentOf(w, width, text, at, end));
    var first := NextWord(text, at, end);
    var pen := PutRest(w, width, m, Pen([], []), text, first, end);
    EmptyTidy(w, width, text, m, first);
    PutRestTidy(w, width, m, Pen([], []), text, first, end);
    FinishGreedy(w, width, text, m, pen, at, end);
  }

  lemma GreedyConcat(w: CellWidth, width: nat, text: string, a: seq<Segment>, b: seq<Segment>, at: nat)
    requires Greedy(w, width, text, a) && Greedy(w, width, text, b)
    requires forall k :: 0 <= k < |a| ==> a[k].origin == at
    requires forall k :: 0 <= k < |b| ==> at < b[k].origin
    ensures Greedy(w, width, text, a + b)
  {
    var all := a + b;
    forall k | 0 <= k < |all| - 1 && all[k].origin == all[k + 1].origin
      ensures all[k + 1].body != [] && ForcedBreak(w, width, text, all[k], all[k + 1].body[0].source)
    {
      if k >= |a| { assert all[k] == b[k - |a|] && all[k + 1] == b[k + 1 - |a|]; }
    }
  }

  lemma {:induction false} WrapFromGreedy(w: CellWidth, width: nat, text: string, at: nat)
    requires at <= |text| && w(' ') == 1
    ensures Greedy(w, width, text, WrapFrom(w, width, text, at))
    ensures BlankOrigins(WrapFrom(w, width, text, at)) == EmptyLines(text, at)
    ensures forall k :: 0 <= k < |WrapFrom(w, width, text, at)| ==> at <= WrapFrom(w, width, text, at)[k].origin
    decreases |text| - at
  {
    if at < |text| {
      var end, next := LineEnd(text, at), NextLine(text, at);
      WrapLineGreedy(w, width, text, at, end);
      WrapFromGreedy(w, width, text, next);
      var line, rest := WrapLine(w, width, text, at, end), WrapFrom(w, width, text, next);
      BlankConcat(line, rest);
      GreedyConcat(w, width, text, line, rest, at);
    }
  }

  /** Lines break only where they must, and the blank rendered lines are exactly the empty source lines. */
  lemma WrapIsGreedy(w: CellWidth, width: nat, text: string)
    requires w(' ') == 1
    ensures Greedy(w, Max(width, 1), text, WrapText(w, width, text))
    ensures WrapFrom(w, Max(width, 1), text, 0) != [] ==>
      BlankOrigins(WrapText(w, width, text)) == EmptyLines(text, 0)
  {
    WrapFromGreedy(w, Max(width, 1), text, 0);
  }

  // ---- Carets -----------------------------------------------------------------------------

  lemma {:induction false} FlatAt(segments: seq<Segment>, r: nat, p: nat)
    requires r < |segments| && p < |segments[r].body|
    ensures |Flat(segments[..r])| + p < |Flat(segments)|
    ensures Flat(segments)[|Flat(segments[..r])| + p] == segments[r].body[p]
  {
    var front := segments[..|segments| - 1];
    if r < |front| {
      assert front[..r] == segments[..r];
      FlatAt(front, r, p);
    } else {
      assert segments[..r] == front;
    }
  }

  lemma {:induction false} FlatOrder(segments: seq<Segment>, q: nat, r: nat)
    requires q < r < |segments|
    ensures |Flat(segments[..q])| + |segments[q].body| <= |Flat(segments[..r])|
  {
    var head := segments[..r];
    assert head[..|head| - 1] == segments[..r - 1];
    if q < r - 1 {
      FlatOrder(segments, q, r - 1);
    }
  }

  /** Everything on an earlier line comes from an earlier source position. */
  lemma EarlierLines(w: CellWidth, text: string, segments: seq<Segment>, q: nat, r: nat, p: nat, i: nat)
    requires Lossless(w, text, segments, 0, |text|) && q < r < |segments| && p < |segments[r].body|
    requires i < |Render(segments[q]).sources|
    ensures Render(segments[q]).sources[i] < segments[r].body[p].source
  {
    FlatAt(segments, r, p);
    FlatOrder(segments, q, r);
    assert Shaped(text, segments[q], 0, |text|);
    var pad := |segments[q].indent|;
    FlatAt(segments, q, Monus(i, pad));
  }

  lemma {:induction false} CaretSkips(w: CellWidth, lines: seq<WrappedLine>, row: nat, r: nat, caret: nat)
    requires row <= r < |lines|
    requires forall q, i :: row <= q < r && 0 <= i < |lines[q].sources| ==> lines[q].sources[i] < caret
    ensures CaretFrom(w, lines, row, caret) == CaretFrom(w, lines, r, caret)
    decreases r - row
  {
    if row < r { CaretSkips(w, lines, row + 1, r, caret); }
  }

  lemma FirstAfterPad(pad: nat, origin: nat, body: seq<Cell>, p: nat)
    requires p < |body| && Increasing(body) && (pad > 0 ==> origin < body[0].source)
    ensures FirstAtLeast(seq(pad, _ => origin) + Sources(body), body[p].source, 0) == pad + p
  {
    var sources := seq(pad, _ => origin) + Sources(body);
    forall i | 0 <= i < pad + p ensures sources[i] < body[p].source {
      if i >= pad { assert sources[i] == body[i - pad].source; }
    }
    assert sources[pad + p] == body[p].source;
  }

  lemma WidthBefore(w: CellWidth, s: Segment, p: nat)
    requires p < |s.body|
    ensures Cells(w, Take(Render(s).text, |s.indent| + p)) == Cells(w, s.indent) + BodyWidth(w, s.body[..p])
  {
    assert Take(Render(s).text, |s.indent| + p) == s.indent + Glyphs(s.body[..p]);
    CellsConcat(w, s.indent, Glyphs(s.body[..p]));
  }

  lemma BodyIncreasing(segments: seq<Segment>, r: nat)
    requires r < |segments| && Increasing(Flat(segments))
    ensures Increasing(segments[r].body)
  {
    forall i, j | 0 <= i < j < |segments[r].body| ensures segments[r].body[i].source < segments[r].body[j].source {
      FlatAt(segments, r, i);
      FlatAt(segments, r, j);
    }
  }

  lemma CaretOnRow(w: CellWidth, text: string, segments: seq<Segment>, r: nat, p: nat)
    requires Lossless(w, text, segments, 0, |text|) && r < |segments| && p < |segments[r].body|
    ensures var s := segments[r];
      CaretCell(w, RenderAll(segments), s.body[p].source) == (r, Cells(w, s.indent) + BodyWidth(w, s.body[..p]))
  {
    var s, lines, caret := segments[r], RenderAll(segments), segments[r].body[p].source;
    forall q, i | 0 <= q < r && 0 <= i < |lines[q].sources| ensures lines[q].sources[i] < caret {
      EarlierLines(w, text, segments, q, r, p, i);
    }
    CaretSkips(w, lines, 0, r, caret);
    assert Shaped(text, s, 0, |text|);
    BodyIncreasing(segments, r);
    FirstAfterPad(|s.indent|, s.origin, s.body, p);
    WidthBefore(w, s, p);
  }

  /** A caret on a rendered character is placed exactly where that character is rendered. */
  lemma CaretIsExact(w: CellWidth, width: nat, text: string, r: nat, p: nat)
    requires r < |WrapText(w, width, text)| && p < |WrapText(w, width, text)[r].body|
    ensures var s := WrapText(w, width, text)[r];
      CaretCell(w, RenderAll(WrapText(w, width, text)), s.body[p].source)
      == (r, Cells(w, s.indent) + BodyWidth(w, s.body[..p]))
  {
    WrapIsLossless(w, width, text);
    CaretOnRow(w, text, WrapText(w, width, text), r, p);
  }

  predicate CellLeq(a: (nat, nat), b: (nat, nat)) {
    a.0 < b.0 || (a.0 == b.0 && a.1 <= b.1)
  }

  lemma CellsPrefix(w: CellWidth, s: string, i: nat, j: nat)
    requires i <= j
    ensures Cells(w, Take(s, i)) <= Cells(w, Take(s, j)) <= Cells(w, s)
  {
    var a, b := Take(s, i), Take(s, j);
    assert b == a + b[|a|..] && s == b + s[|b|..];
    CellsConcat(w, a, b[|a|..]);
    CellsConcat(w, b, s[|b|..]);
  }

  lemma {:induction false} CaretFromIsMonotone(w: CellWidth, lines: seq<WrappedLine>, row: nat, a: nat, b: nat)
    requires row <= |lines| && a <= b
    ensures CellLeq(CaretFrom(w, lines, row, a), CaretFrom(w, lines, row, b))
    ensures row < |lines| ==> row <= CaretFrom(w, lines, row, a).0 < |lines|
    decreases |lines| - row
  {
    if row < |lines| {
      var n := |lines[row].sources|;
      var i, j := FirstAtLeast(lines[row].sources, a, 0), FirstAtLeast(lines[row].sources, b, 0);
      assert i <= j;
      CellsPrefix(w, lines[row].text, i, j);
      CaretFromIsMonotone(w, lines, row + 1, a, b);
      CaretFromIsMonotone(w, lines, row + 1, b, b);
    }
  }

  /** Moving the caret forward in the source never moves it back on screen, for any source map. */
  lemma CaretIsMonotone(w: CellWidth, lines: seq<WrappedLine>, a: nat, b: nat)
    requires a <= b
    ensures CellLeq(CaretCell(w, lines, a), CaretCell(w, lines, b))
  {
    CaretFromIsMonotone(w, lines, 0, a, b);
  }

  // ---- Where the bounds come from ---------------------------------------------------------

  /** A text of one glyph renders as that glyph on one line, whatever the width, or as nothing if it has no width. */
  lemma OneGlyph(w: CellWidth, width: nat, c: char)
    requires !IsWhitespace(c)
    ensures WrapText(w, width, [c]) == [if w(c) > 0 then Segment(0, "", [Cell(c, 0)]) else Segment(0, "", [])]
  {
    var text := [c];
    assert text[0..1] == text && text[1..] == [];
    assert LineEnd(text, 0) == 1 && NextWord(text, 0, 1) == 0 && WordEnd(text, 0, 1) == 1;
    assert IndentOf(w, Max(width, 1), text, 0, 1) == "";
    var m, pen := Margin(0, ""), Pen([], [Cell(c, 0)]);
    NoWidth(w);
    assert PutWord(w, Max(width, 1), m, Pen([], []), text, 0, 1) == pen;
    assert PutRest(w, Max(width, 1), m, pen, text, 1, 1) == pen;
    BodyPush(w, [], Cell(c, 0));
    assert [] + [Cell(c, 0)] == [Cell(c, 0)];
    assert WrapFrom(w, Max(width, 1), text, 1) == [];
  }

  /** One cell is too narrow for a double-width character: its line overflows, so lines fit from width 2 on. */
  lemma WideGlyphOverflows(w: CellWidth, c: char)
    requires !IsWhitespace(c) && w(c) == 2
    ensures !Fits(w, 1, WrapText(w, 1, [c]))
  {
    OneGlyph(w, 1, c);
    var line := Segment(0, "", [Cell(c, 0)]);
    LineCellsSplit(w, line);
    BodyPush(w, [], Cell(c, 0));
    NoWidth(w);
    assert [] + [Cell(c, 0)] == [Cell(c, 0)];
    assert LineCells(w, WrapText(w, 1, [c])[0]) == 2;
  }
}
