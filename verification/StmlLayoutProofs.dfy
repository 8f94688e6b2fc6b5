/** What wrapping, framing and column division promise. */
module StmlLayoutProofs {
  import opened Text
  import opened DiffModel
  import opened StmlLayout

  // ---- Marks: what of a span can be seen --------------------------------------------------

  /** A character with its style. */
  type Mark = (char, Style)

  /** A space shows only when it has a background; a newline never does. */
  predicate Shows(c: char, style: Style) {
    c != '\n' && (c != ' ' || style.bg.Some?)
  }

  function TextMarks(text: string, style: Style): seq<Mark> {
    if text == [] then []
    else (if Shows(text[0], style) then [(text[0], style)] else []) + TextMarks(text[1..], style)
  }

  function Marks(line: Line): seq<Mark> {
    if line == [] then []
    else Marks(line[..|line| - 1]) + TextMarks(line[|line| - 1].text, line[|line| - 1].style)
  }

  function AllMarks(lines: seq<Line>): seq<Mark> {
    if lines == [] then [] else AllMarks(lines[..|lines| - 1]) + Marks(lines[|lines| - 1])
  }

  lemma {:induction false} TextMarksConcat(a: string, b: string, style: Style)
    ensures TextMarks(a + b, style) == TextMarks(a, style) + TextMarks(b, style)
  {
    if a == [] {
      assert a + b == b;
    } else {
      assert (a + b)[1..] == a[1..] + b;
      TextMarksConcat(a[1..], b, style);
    }
  }

  lemma MarksSnoc(line: Line, span: StyledSpan)
    ensures Marks(line + [span]) == Marks(line) + TextMarks(span.text, span.style)
    ensures forall w: CellWidth :: LineWidth(w, line + [span]) == LineWidth(w, line) + Cells(w, span.text)
  {
    assert (line + [span])[..|line|] == line;
  }

  lemma AllMarksSnoc(lines: seq<Line>, line: Line)
    ensures AllMarks(lines + [line]) == AllMarks(lines) + Marks(line)
  {
    assert (lines + [line])[..|lines|] == lines;
  }

  lemma PushKeeps(w: CellWidth, line: Line, span: StyledSpan)
    ensures Marks(PushStyled(line, span)) == Marks(line) + TextMarks(span.text, span.style)
    ensures LineWidth(w, PushStyled(line, span)) == LineWidth(w, line) + Cells(w, span.text)
  {
    if span.text == [] {
    } else if line != [] && line[|line| - 1].style == span.style {
      var front, last := line[..|line| - 1], line[|line| - 1];
      var joined := StyledSpan(last.text + span.text, span.style);
      MarksSnoc(front, last);
      assert front + [last] == line;
      MarksSnoc(front, joined);
      TextMarksConcat(last.text, span.text, span.style);
      CellsConcat(w, last.text, span.text);
    } else {
      MarksSnoc(line, span);
    }
  }

  lemma {:induction false} AppendKeeps(w: CellWidth, target: Line, source: Line)
    ensures Marks(AppendLine(target, source)) == Marks(target) + Marks(source)
    ensures LineWidth(w, AppendLine(target, source)) == LineWidth(w, target) + LineWidth(w, source)
  {
    if source != [] {
      AppendKeeps(w, target, source[..|source| - 1]);
      PushKeeps(w, AppendLine(target, source[..|source| - 1]), source[|source| - 1]);
    }
  }

  lemma {:induction false} SpacesTrim(w: CellWidth, s: string, style: Style)
    ensures Cells(w, TrimSpaces(s)) <= Cells(w, s)
    ensures style.bg.None? ==> TextMarks(TrimSpaces(s), style) == TextMarks(s, style)
    decreases |s|
  {
    if s != [] && s[|s| - 1] == ' ' {
      var front := s[..|s| - 1];
      assert s == front + " ";
      SpacesTrim(w, front, style);
      TextMarksConcat(front, " ", style);
      CellsConcat(w, front, " ");
      assert style.bg.None? ==> TextMarks(" ", style) == [] by { assert " "[1..] == []; }
    }
  }

  lemma {:induction false} TrimKeeps(w: CellWidth, line: Line)
    ensures Marks(TrimPlainEnd(line)) == Marks(line)
    ensures LineWidth(w, TrimPlainEnd(line)) <= LineWidth(w, line)
  {
    if line != [] {
      var front, last := line[..|line| - 1], line[|line| - 1];
      if last.style.bg.None? {
        SpacesTrim(w, last.text, last.style);
        TrimKeeps(w, front);
        MarksSnoc(front, StyledSpan(TrimSpaces(last.text), last.style));
      }
    }
  }

  // ---- Tokens spell the spans -------------------------------------------------------------

  predicate TokenOk(w: CellWidth, t: Token) {
    && (t.kind == Break <==> t.span.text == "\n")
    && (t.kind == Space ==> TextMarks(t.span.text, t.span.style) == [] && t.span.style.bg.None?)
    && (t.kind == Space ==> forall i :: 0 <= i < |t.span.text| ==> t.span.text[i] == ' ')
    && (t.kind != Break ==> t.span.text != [] && t.width == Cells(w, t.span.text))
    && (t.kind == Word ==> forall i :: 0 <= i < |t.span.text| ==> Shows(t.span.text[i], t.span.style))
  }

  function TokenMarks(tokens: seq<Token>): seq<Mark> {
    if tokens == [] then []
    else TokenMarks(tokens[..|tokens| - 1]) + TextMarks(tokens[|tokens| - 1].span.text, tokens[|tokens| - 1].span.style)
  }

  predicate RunOk(s: Scanner) {
    && (s.mode.None? <==> s.run == [])
    && (s.mode.Some? ==> s.mode.value != Break && forall i :: 0 <= i < |s.run| ==> KindOfChar(s.run[i]) == s.mode.value)
  }

  ghost predicate ScannerOk(w: CellWidth, s: Scanner) {
    RunOk(s) && forall i :: 0 <= i < |s.tokens| ==> TokenOk(w, s.tokens[i])
  }

  lemma TokenMarksSnoc(tokens: seq<Token>, t: Token)
    ensures TokenMarks(tokens + [t]) == TokenMarks(tokens) + TextMarks(t.span.text, t.span.style)
  {
    assert (tokens + [t])[..|tokens|] == tokens;
  }

  lemma {:induction false} PlainSpaces(s: string, style: Style)
    requires style.bg.None? && forall i :: 0 <= i < |s| ==> s[i] == ' '
    ensures TextMarks(s, style) == []
  {
    if s != [] { PlainSpaces(s[1..], style); }
  }

  lemma FlushOk(w: CellWidth, s: Scanner, style: Style)
    requires ScannerOk(w, s)
    ensures ScannerOk(w, FlushRun(w, s, style)) && FlushRun(w, s, style).run == []
    ensures TokenMarks(FlushRun(w, s, style).tokens) == TokenMarks(s.tokens) + TextMarks(s.run, style)
  {
    if s.mode.Some? {
      var kind := if s.mode.value == Space && style.bg.Some? then Word else s.mode.value;
      var token := Token(StyledSpan(s.run, style), kind, Cells(w, s.run));
      TokenMarksSnoc(s.tokens, token);
      if kind == Space { PlainSpaces(s.run, style); }
      assert TokenOk(w, token) by {
        assert KindOfChar(s.run[0]) == s.mode.value;
        assert s.run[0] != '\n';
      }
    }
  }

  function Spelled(s: Scanner, style: Style): seq<Mark> { TokenMarks(s.tokens) + TextMarks(s.run, style) }

  lemma NoTextNoMarks(style: Style)
    ensures TextMarks([], style) == []
  {
  }

  lemma ScanOk(w: CellWidth, s: Scanner, style: Style, c: char)
    requires ScannerOk(w, s)
    ensures ScannerOk(w, ScanChar(w, s, style, c))
    ensures Spelled(ScanChar(w, s, style, c), style) == Spelled(s, style) + TextMarks([c], style)
  {
    hide FlushRun, TokenMarks, TextMarks;
    var flushed := FlushRun(w, s, style);
    FlushOk(w, s, style);
    TextMarksConcat(s.run, [c], style);
    NoTextNoMarks(style);
    if c == '\n' {
      var token := Token(StyledSpan("\n", style), Break, 0);
      TokenMarksSnoc(flushed.tokens, token);
      assert flushed.mode.None?;
      assert TokenOk(w, token);
    } else if s.mode.Some? && s.mode.value != KindOfChar(c) {
    } else {
      assert ScanChar(w, s, style, c).tokens == s.tokens;
    }
  }

  lemma {:induction false} ScanTextOk(w: CellWidth, s: Scanner, style: Style, text: string)
    requires ScannerOk(w, s)
    ensures ScannerOk(w, ScanText(w, s, style, text))
    ensures Spelled(ScanText(w, s, style, text), style) == Spelled(s, style) + TextMarks(text, style)
    decreases |text|
  {
    hide ScanChar, ScannerOk, Spelled;
    if text != [] {
      hide TextMarks;
      var front, c := text[..|text| - 1], text[|text| - 1];
      ScanTextOk(w, s, style, front);
      ScanOk(w, ScanText(w, s, style, front), style, c);
      assert text == front + [c];
      TextMarksConcat(front, [c], style);
    }
  }

  lemma ScanStarts(w: CellWidth, before: seq<Token>, style: Style)
    requires forall i :: 0 <= i < |before| ==> TokenOk(w, before[i])
    ensures ScannerOk(w, Scanner(before, [], None)) && Spelled(Scanner(before, [], None), style) == TokenMarks(before)
  {
  }

  lemma ScanEnds(w: CellWidth, s: Scanner, style: Style)
    requires ScannerOk(w, s)
    ensures var after := FlushRun(w, s, style).tokens;
      TokenMarks(after) == Spelled(s, style) && forall i :: 0 <= i < |after| ==> TokenOk(w, after[i])
  {
    hide FlushRun;
    FlushOk(w, s, style);
  }

  lemma SpanSpells(w: CellWidth, before: seq<Token>, span: StyledSpan, after: seq<Token>)
    requires forall i :: 0 <= i < |before| ==> TokenOk(w, before[i])
    requires after == FlushRun(w, ScanText(w, Scanner(before, [], None), span.style, span.text), span.style).tokens
    ensures TokenMarks(after) == TokenMarks(before) + TextMarks(span.text, span.style)
    ensures forall i :: 0 <= i < |after| ==> TokenOk(w, after[i])
  {
    hide *;
    var start := Scanner(before, [], None);
    ScanStarts(w, before, span.style);
    ScanTextOk(w, start, span.style, span.text);
    ScanEnds(w, ScanText(w, start, span.style, span.text), span.style);
  }

  /** Tokens carry the spans' visible characters, in order and with their styles. */
  lemma {:induction false} TokensSpell(w: CellWidth, spans: seq<StyledSpan>)
    ensures TokenMarks(Tokens(w, spans)) == Marks(spans)
    ensures forall i :: 0 <= i < |Tokens(w, spans)| ==> TokenOk(w, Tokens(w, spans)[i])
  {
    if spans != [] {
      hide ScanText, FlushRun, TokenOk;
      TokensSpell(w, spans[..|spans| - 1]);
      SpanSpells(w, Tokens(w, spans[..|spans| - 1]), spans[|spans| - 1], Tokens(w, spans));
    }
  }

  // ---- Wrapping loses nothing and fits ----------------------------------------------------

  predicate MarksFit(w: CellWidth, marks: seq<Mark>, width: nat) {
    forall i :: 0 <= i < |marks| ==> w(marks[i].0) <= width
  }

  predicate LinesFit(w: CellWidth, lines: seq<Line>, width: nat) {
    forall i :: 0 <= i < |lines| ==> LineWidth(w, lines[i]) <= width
  }

  function FlowMarks(f: Flow): seq<Mark> { AllMarks(f.lines) + Marks(f.current) }

  predicate FlowFits(w: CellWidth, f: Flow, width: nat) {
    && LinesFit(w, f.lines, width)
    && LineWidth(w, f.current) == f.used <= width
    && (!f.started ==> f.current == [])
  }

  lemma FlushKeeps(w: CellWidth, f: Flow, width: nat)
    ensures FlowMarks(FlushLine(f)) == FlowMarks(f)
    ensures FlowFits(w, f, width) ==> LinesFit(w, FlushLine(f).lines, width)
  {
    TrimKeeps(w, f.current);
    AllMarksSnoc(f.lines, TrimPlainEnd(f.current));
  }

  lemma {:induction false} PrefixFits(w: CellWidth, s: string, width: nat)
    ensures Cells(w, s[..FittingPrefix(w, s, width)]) <= width
    ensures FittingPrefix(w, s, width) == 0 && s != [] ==> w(s[0]) > width
    decreases |s|
  {
    var n := FittingPrefix(w, s, width);
    if n > 0 {
      PrefixFits(w, s[1..], width - w(s[0]));
      assert s[..n][1..] == s[1..][..n - 1];
    }
  }

  /** Breaking a line off a wide word moves its marks from the word to the line. */
  lemma BreakKeeps(w: CellWidth, lines: seq<Line>, current: Line, text: string, n: nat, style: Style)
    requires n <= |text|
    ensures var line := TrimPlainEnd(PushStyled(current, StyledSpan(text[..n], style)));
      AllMarks(lines + [line]) + TextMarks(text[n..], style) == AllMarks(lines) + Marks(current)
        + TextMarks(text, style)
  {
    hide TrimPlainEnd, PushStyled, Marks, AllMarks, TextMarks;
    var line := PushStyled(current, StyledSpan(text[..n], style));
    PushKeeps(w, current, StyledSpan(text[..n], style));
    TrimKeeps(w, line);
    AllMarksSnoc(lines, TrimPlainEnd(line));
    TextMarksConcat(text[..n], text[n..], style);
    assert text == text[..n] + text[n..];
  }

  function SplitMarks(split: (Flow, string), style: Style): seq<Mark> {
    FlowMarks(split.0) + TextMarks(split.1, style)
  }

  lemma {:induction false} SplitKeeps(w: CellWidth, width: nat, lines: seq<Line>, current: Line, text: string,
                                      style: Style)
    ensures SplitMarks(SplitWord(w, width, lines, current, text, style), style)
         == AllMarks(lines) + Marks(current) + TextMarks(text, style)
    decreases |text|
  {
    hide TrimPlainEnd, FittingPrefix, PushStyled, AllMarks, TextMarks;
    var n := FittingPrefix(w, text, width);
    if Cells(w, text) > width && n > 0 {
      var line := PushStyled(current, StyledSpan(text[..n], style));
      BreakKeeps(w, lines, current, text, n, style);
      SplitKeeps(w, width, lines + [TrimPlainEnd(line)], [], text[n..], style);
    }
  }

  lemma {:induction false} SplitFits(w: CellWidth, width: nat, lines: seq<Line>, text: string, style: Style)
    requires LinesFit(w, lines, width)
    requires forall i :: 0 <= i < |text| ==> w(text[i]) <= width
    ensures var (f, rest) := SplitWord(w, width, lines, [], text, style);
      LinesFit(w, f.lines, width) && f.current == [] && Cells(w, rest) <= width
    decreases |text|
  {
    var n := FittingPrefix(w, text, width);
    PrefixFits(w, text, width);
    if Cells(w, text) > width {
      assert n > 0;
      hide TrimPlainEnd, FittingPrefix, PushStyled;
      var line := PushStyled([], StyledSpan(text[..n], style));
      PushKeeps(w, [], StyledSpan(text[..n], style));
      TrimKeeps(w, line);
      SplitFits(w, width, lines + [TrimPlainEnd(line)], text[n..], style);
    }
  }

  lemma WideKeeps(w: CellWidth, width: nat, f: Flow, token: Token)
    ensures FlowMarks(PlaceWide(w, width, f, token)) == FlowMarks(f) + TextMarks(token.span.text, token.span.style)
  {
    hide FlushLine, SplitWord, PushStyled, AllMarks, Marks, TextMarks;
    FlushKeeps(w, f, width);
    var begun := if f.started then FlushLine(f) else f;
    var (split, rest) := SplitWord(w, width, begun.lines, begun.current, token.span.text, token.span.style);
    SplitKeeps(w, width, begun.lines, begun.current, token.span.text, token.span.style);
    PushKeeps(w, split.current, StyledSpan(rest, token.span.style));
    Assoc(AllMarks(split.lines), Marks(split.current), TextMarks(rest, token.span.style));
    NoTextNoMarks(token.span.style);
    assert FlowMarks(split) + [] == FlowMarks(split);
  }

  lemma WideFits(w: CellWidth, width: nat, f: Flow, token: Token)
    requires FlowFits(w, f, width)
    requires forall i :: 0 <= i < |token.span.text| ==> w(token.span.text[i]) <= width
    ensures FlowFits(w, PlaceWide(w, width, f, token), width)
  {
    hide SplitWord, PushStyled, TrimPlainEnd;
    FlushKeeps(w, f, width);
    var begun := if f.started then FlushLine(f) else f;
    var (split, rest) := SplitWord(w, width, begun.lines, begun.current, token.span.text, token.span.style);
    SplitFits(w, width, begun.lines, token.span.text, token.span.style);
    PushKeeps(w, split.current, StyledSpan(rest, token.span.style));
  }

  lemma NewlineDoesNotShow(style: Style)
    ensures TextMarks("\n", style) == []
  {
    assert "\n"[1..] == [];
  }

  lemma PlaceKeeps(w: CellWidth, width: nat, f: Flow, token: Token)
    requires TokenOk(w, token)
    ensures FlowMarks(PlaceToken(w, width, f, token)) == FlowMarks(f) + TextMarks(token.span.text, token.span.style)
  {
    hide PlaceWide, PushStyled, TrimPlainEnd, AllMarks, Marks, TextMarks;
    FlushKeeps(w, f, width);
    var marks := TextMarks(token.span.text, token.span.style);
    if token.kind == Break { NewlineDoesNotShow(token.span.style); }
    assert token.kind != Word ==> FlowMarks(f) + marks == FlowMarks(f);
    PushKeeps(w, f.current, token.span);
    Assoc(AllMarks(f.lines), Marks(f.current), marks);
    WideKeeps(w, width, f, token);
  }

  lemma PlaceFits(w: CellWidth, width: nat, f: Flow, token: Token)
    requires TokenOk(w, token) && FlowFits(w, f, width)
    requires token.kind == Word ==> forall i :: 0 <= i < |token.span.text| ==> w(token.span.text[i]) <= width
    ensures FlowFits(w, PlaceToken(w, width, f, token), width)
  {
    hide PlaceWide, PushStyled, TrimPlainEnd;
    FlushKeeps(w, f, width);
    PushKeeps(w, f.current, token.span);
    if token.kind == Word { WideFits(w, width, f, token); }
  }

  lemma {:induction false} PlacedKeeps(w: CellWidth, width: nat, tokens: seq<Token>)
    requires forall i :: 0 <= i < |tokens| ==> TokenOk(w, tokens[i])
    ensures FlowMarks(PlaceTokens(w, width, tokens)) == TokenMarks(tokens)
  {
    if tokens != [] {
      hide PlaceToken;
      PlacedKeeps(w, width, tokens[..|tokens| - 1]);
      PlaceKeeps(w, width, PlaceTokens(w, width, tokens[..|tokens| - 1]), tokens[|tokens| - 1]);
    }
  }

  predicate WordsFit(w: CellWidth, tokens: seq<Token>, width: nat) {
    forall k :: 0 <= k < |tokens| && tokens[k].kind == Word ==>
      forall i :: 0 <= i < |tokens[k].span.text| ==> w(tokens[k].span.text[i]) <= width
  }

  lemma {:induction false} PlacedFits(w: CellWidth, width: nat, tokens: seq<Token>)
    requires forall i :: 0 <= i < |tokens| ==> TokenOk(w, tokens[i])
    requires WordsFit(w, tokens, width)
    ensures FlowFits(w, PlaceTokens(w, width, tokens), width)
  {
    if tokens != [] {
      hide PlaceToken;
      PlacedFits(w, width, tokens[..|tokens| - 1]);
      PlaceFits(w, width, PlaceTokens(w, width, tokens[..|tokens| - 1]), tokens[|tokens| - 1]);
    }
  }

  lemma {:induction false} TextMarksHold(text: string, style: Style, i: nat)
    requires i < |text| && Shows(text[i], style)
    ensures (text[i], style) in TextMarks(text, style)
  {
    if i > 0 { TextMarksHold(text[1..], style, i - 1); }
  }

  lemma {:induction false} TokenMarksHold(tokens: seq<Token>, k: nat, m: Mark)
    requires k < |tokens| && m in TextMarks(tokens[k].span.text, tokens[k].span.style)
    ensures m in TokenMarks(tokens)
  {
    if k < |tokens| - 1 { TokenMarksHold(tokens[..|tokens| - 1], k, m); }
  }

  lemma {:induction false} TextMarkWidth(w: CellWidth, text: string, style: Style, m: Mark)
    requires m in TextMarks(text, style)
    ensures w(m.0) <= Cells(w, text)
  {
    if text != [] && m in TextMarks(text[1..], style) { TextMarkWidth(w, text[1..], style, m); }
  }

  lemma {:induction false} LineMarkWidth(w: CellWidth, line: Line, m: Mark)
    requires m in Marks(line)
    ensures w(m.0) <= LineWidth(w, line)
  {
    if line != [] {
      if m in Marks(line[..|line| - 1]) {
        LineMarkWidth(w, line[..|line| - 1], m);
      } else {
        TextMarkWidth(w, line[|line| - 1].text, line[|line| - 1].style, m);
      }
    }
  }

  lemma {:induction false} AllMarksWidth(w: CellWidth, lines: seq<Line>, m: Mark, width: nat)
    requires m in AllMarks(lines) && LinesFit(w, lines, width)
    ensures w(m.0) <= width
  {
    if lines != [] {
      if m in AllMarks(lines[..|lines| - 1]) {
        AllMarksWidth(w, lines[..|lines| - 1], m, width);
      } else {
        LineMarkWidth(w, lines[|lines| - 1], m);
      }
    }
  }

  /** Wrapping shows every visible character once, in order and in its own style, at any width. */
  lemma WrapShowsEverything(w: CellWidth, spans: seq<StyledSpan>, width: nat)
    ensures AllMarks(Wrapped(w, spans, width)) == Marks(spans)
  {
    hide Tokens, PlaceTokens, TrimPlainEnd;
    var tokens := Tokens(w, spans);
    TokensSpell(w, spans);
    PlacedKeeps(w, width, tokens);
    var f := PlaceTokens(w, width, tokens);
    TrimKeeps(w, f.current);
    AllMarksSnoc(f.lines, TrimPlainEnd(f.current));
  }

  /** No line is wider than asked exactly when no single visible character is. */
  lemma WrapFitsIff(w: CellWidth, spans: seq<StyledSpan>, width: nat)
    ensures LinesFit(w, Wrapped(w, spans, width), width) <==> MarksFit(w, Marks(spans), width)
  {
    hide Tokens, PlaceTokens, TrimPlainEnd, AllMarks, Marks, TokenMarks, TokenOk, Wrapped;
    WrapShowsEverything(w, spans, width);
    if LinesFit(w, Wrapped(w, spans, width), width) {
      forall i | 0 <= i < |Marks(spans)| ensures w(Marks(spans)[i].0) <= width {
        AllMarksWidth(w, Wrapped(w, spans, width), Marks(spans)[i], width);
      }
    }
    if MarksFit(w, Marks(spans), width) { WrapFits(w, spans, width); }
  }

  lemma WrapFits(w: CellWidth, spans: seq<StyledSpan>, width: nat)
    requires MarksFit(w, Marks(spans), width)
    ensures LinesFit(w, Wrapped(w, spans, width), width)
  {
    hide Tokens, PlaceTokens, TrimPlainEnd, Marks, TokenMarks;
    var tokens := Tokens(w, spans);
    TokensSpell(w, spans);
    forall k, i | 0 <= k < |tokens| && tokens[k].kind == Word && 0 <= i < |tokens[k].span.text|
      ensures w(tokens[k].span.text[i]) <= width
    {
      TextMarksHold(tokens[k].span.text, tokens[k].span.style, i);
      TokenMarksHold(tokens, k, (tokens[k].span.text[i], tokens[k].span.style));
    }
    PlacedFits(w, width, tokens);
    TrimKeeps(w, PlaceTokens(w, width, tokens).current);
  }

  // ---- Frames -----------------------------------------------------------------------------

  /** Blanks and border pieces take one cell each. */
  predicate FrameCells(w: CellWidth, chars: BorderChars) {
    && w(' ') == 1
    && w(chars.topLeft) == w(chars.topRight) == w(chars.bottomLeft) == w(chars.bottomRight) == 1
    && w(chars.horizontal) == w(chars.vertical) == 1
  }

  predicate Titled(o: FrameOptions) { o.title.Some? && Trim(o.title.value) != [] }

  function FrameCost(o: FrameOptions): nat { (if o.bordered then 2 else 0) + 2 * o.paddingX }

  lemma OneSpan(w: CellWidth, span: StyledSpan)
    ensures LineWidth(w, [span]) == Cells(w, span.text)
    ensures LineWidth(w, PushStyled([], span)) == Cells(w, span.text)
  {
    assert [span][..0] == [];
  }

  lemma OneChar(w: CellWidth, c: char)
    ensures Cells(w, [c]) == w(c)
  {
    assert [c][1..] == [];
  }

  lemma {:induction false} BackgroundKeepsWidth(w: CellWidth, line: Line, bg: Option<string>)
    ensures LineWidth(w, WithBackground(line, bg)) == LineWidth(w, line)
  {
    if line != [] {
      BackgroundKeepsWidth(w, line[..|line| - 1], bg);
      assert WithBackground(line, bg)[..|line| - 1] == WithBackground(line[..|line| - 1], bg);
    }
  }

  lemma FillWidth(w: CellWidth, line: Line, width: nat, bg: Option<string>)
    requires w(' ') == 1
    ensures LineWidth(w, FillLine(w, line, width, bg)) == Max(LineWidth(w, line), width)
  {
    hide WithBackground, PushStyled, LineWidth;
    BackgroundKeepsWidth(w, line, bg);
    var used := LineWidth(w, line);
    if used < width {
      PushKeeps(w, WithBackground(line, bg), StyledSpan(Spaces(width - used), PLAIN.(bg := bg)));
      CellsRepeat(w, ' ', width - used);
    }
  }

  lemma PaddedWidth(w: CellWidth, line: Line, o: FrameOptions)
    requires w(' ') == 1 && LineWidth(w, line) <= o.InnerWidth()
    ensures LineWidth(w, PaddedLine(w, line, o)) == o.InnerWidth() + 2 * o.paddingX
  {
    hide FillLine, PushStyled, LineWidth, AppendLine, Marks;
    var pad := StyledSpan(Spaces(o.paddingX), o.PadStyle());
    var filled := FillLine(w, line, o.InnerWidth(), o.background);
    FillWidth(w, line, o.InnerWidth(), o.background);
    CellsRepeat(w, ' ', o.paddingX);
    OneSpan(w, pad);
    AppendKeeps(w, PushStyled([], pad), filled);
    PushKeeps(w, AppendLine(PushStyled([], pad), filled), pad);
  }

  lemma BlankWidth(w: CellWidth, o: FrameOptions)
    requires w(' ') == 1
    ensures LineWidth(w, BlankBodyLine(o)) == o.InnerWidth() + 2 * o.paddingX
  {
    OneSpan(w, StyledSpan(Spaces(o.InnerWidth() + 2 * o.paddingX), o.PadStyle()));
    CellsRepeat(w, ' ', o.InnerWidth() + 2 * o.paddingX);
  }

  predicate AllWide(w: CellWidth, lines: seq<Line>, width: nat) {
    forall i :: 0 <= i < |lines| ==> LineWidth(w, lines[i]) == width
  }

  lemma {:induction false} BodyLinesWide(w: CellWidth, content: seq<Line>, o: FrameOptions, n: nat)
    requires w(' ') == 1 && LinesFit(w, content, o.InnerWidth()) && n <= |content|
    ensures |BodyLines(w, content, o, n)| == o.paddingY + n
    ensures AllWide(w, BodyLines(w, content, o, n), o.InnerWidth() + 2 * o.paddingX)
  {
    hide PaddedLine, BlankBodyLine, LineWidth;
    if n == 0 {
      BlankWidth(w, o);
    } else {
      BodyLinesWide(w, content, o, n - 1);
      PaddedWidth(w, content[n - 1], o);
    }
  }

  lemma BodyWide(w: CellWidth, content: seq<Line>, o: FrameOptions)
    requires w(' ') == 1 && LinesFit(w, content, o.InnerWidth())
    ensures |Body(w, content, o)| == |content| + 2 * o.paddingY
    ensures AllWide(w, Body(w, content, o), o.InnerWidth() + 2 * o.paddingX)
  {
    hide BodyLines, BlankBodyLine, LineWidth;
    BodyLinesWide(w, content, o, |content|);
    BlankWidth(w, o);
  }

  lemma FramedWidth(w: CellWidth, line: Line, o: FrameOptions)
    requires FrameCells(w, o.chars)
    ensures LineWidth(w, FramedLine(line, o)) == LineWidth(w, line) + 2
  {
    hide PushStyled, LineWidth, AppendLine, Marks;
    var side := StyledSpan([o.chars.vertical], o.SideStyle());
    OneChar(w, o.chars.vertical);
    OneSpan(w, side);
    AppendKeeps(w, PushStyled([], side), line);
    PushKeeps(w, AppendLine(PushStyled([], side), line), side);
  }

  lemma {:induction false} FramedLinesWide(w: CellWidth, body: seq<Line>, o: FrameOptions, n: nat, width: nat)
    requires FrameCells(w, o.chars) && AllWide(w, body, width) && n <= |body|
    ensures |FramedLines(body, o, n)| == n && AllWide(w, FramedLines(body, o, n), width + 2)
  {
    hide FramedLine, LineWidth;
    if n > 0 {
      FramedLinesWide(w, body, o, n - 1, width);
      FramedWidth(w, body[n - 1], o);
    }
  }

  lemma BorderRun(w: CellWidth, before: string, chars: BorderChars, n: nat, after: char)
    requires FrameCells(w, chars) && w(after) == 1
    ensures Cells(w, before + Repeat(chars.horizontal, n) + [after]) == Cells(w, before) + n + 1
  {
    CellsConcat(w, before, Repeat(chars.horizontal, n));
    CellsPush(w, before + Repeat(chars.horizontal, n), after);
    CellsRepeat(w, chars.horizontal, n);
  }

  lemma BottomWidth(w: CellWidth, o: FrameOptions)
    requires FrameCells(w, o.chars)
    ensures LineWidth(w, BottomBorder(o)) == Max(o.width, 2)
  {
    hide LineWidth;
    BorderRun(w, [o.chars.bottomLeft], o.chars, Monus(o.width, 2), o.chars.bottomRight);
    OneChar(w, o.chars.bottomLeft);
    OneSpan(w, BottomBorder(o)[0]);
  }

  lemma PlainTopWidth(w: CellWidth, o: FrameOptions)
    requires FrameCells(w, o.chars) && !Titled(o)
    ensures LineWidth(w, TopBorder(w, o)) == Max(o.width, 2)
  {
    hide LineWidth, PushStyled, Trim;
    var text := [o.chars.topLeft] + Repeat(o.chars.horizontal, Monus(o.width, 2)) + [o.chars.topRight];
    BorderRun(w, [o.chars.topLeft], o.chars, Monus(o.width, 2), o.chars.topRight);
    OneChar(w, o.chars.topLeft);
    OneSpan(w, StyledSpan(text, o.BorderStyle()));
  }

  lemma TitledTopWidth(w: CellWidth, o: FrameOptions)
    requires FrameCells(w, o.chars) && Titled(o)
    ensures LineWidth(w, TopBorder(w, o)) == Max(o.width, 3)
  {
    hide LineWidth, PushStyled, Trim, FittingPrefix, Cells, Marks, TextMarks;
    var across := Monus(o.width, 2);
    var text := " " + Trim(o.title.value) + " ";
    PrefixFits(w, text, Monus(across, 2));
    var name := text[..FittingPrefix(w, text, Monus(across, 2))];
    var corner := StyledSpan([o.chars.topLeft, o.chars.horizontal], o.BorderStyle());
    var named := StyledSpan(name, PLAIN.(fg := Some(o.titleColor), bold := true));
    var n := Monus(across, 1 + Cells(w, name));
    var tail := StyledSpan(Repeat(o.chars.horizontal, n) + [o.chars.topRight], o.BorderStyle());
    CellsPush(w, [o.chars.topLeft], o.chars.horizontal);
    assert [o.chars.topLeft] + [o.chars.horizontal] == corner.text;
    OneChar(w, o.chars.topLeft);
    CellsPush(w, Repeat(o.chars.horizontal, n), o.chars.topRight);
    CellsRepeat(w, o.chars.horizontal, n);
    OneSpan(w, corner);
    PushKeeps(w, PushStyled([], corner), named);
    PushKeeps(w, PushStyled(PushStyled([], corner), named), tail);
  }

  /** What a frame needs to come out exactly as wide as asked. */
  predicate FrameHasRoom(o: FrameOptions, content: nat) {
    && (content + o.paddingY > 0 ==> o.width >= FrameCost(o) + 1)
    && (o.bordered ==> o.width >= (if Titled(o) then 3 else 2))
  }

  /** A frame around fitting content is exactly as wide as asked if and only if it has room. */
  lemma FrameIsExactIff(w: CellWidth, content: seq<Line>, o: FrameOptions)
    requires FrameCells(w, o.chars) && LinesFit(w, content, o.InnerWidth())
    ensures AllWide(w, Framed(w, content, o), o.width) <==> FrameHasRoom(o, |content|)
    ensures |Framed(w, content, o)| == |content| + 2 * o.paddingY + (if o.bordered then 2 else 0)
  {
    hide Body, FramedLines, TopBorder, BottomBorder, LineWidth, Titled;
    var body, inner := Body(w, content, o), o.InnerWidth() + 2 * o.paddingX;
    BodyWide(w, content, o);
    if o.bordered {
      var top, bottom := TopBorder(w, o), BottomBorder(o);
      FramedLinesWide(w, body, o, |body|, inner);
      var sides := FramedLines(body, o, |body|);
      BottomWidth(w, o);
      if Titled(o) { TitledTopWidth(w, o); } else { PlainTopWidth(w, o); }
      var all := Framed(w, content, o);
      assert all[0] == top && all[|all| - 1] == bottom;
      assert |body| > 0 ==> all[1] == sides[0];
    } else {
      assert |body| > 0 ==> LineWidth(w, body[0]) == inner;
    }
  }

  /** Boxes and cards cut their padding to fit, so they are exact from width 3 on. */
  lemma BoxIsExact(w: CellWidth, content: seq<Line>, o: FrameOptions)
    requires FrameCells(w, o.chars) && LinesFit(w, content, o.InnerWidth())
    requires o.width >= 3 && o.paddingX <= Monus(o.width, (if o.bordered then 2 else 0) + 1) / 2
    ensures AllWide(w, Framed(w, content, o), o.width)
  {
    hide Framed, LineWidth;
    FrameIsExactIff(w, content, o);
  }

  /** Code blocks keep one cell of padding at any width: below 5 cells their frames overflow. */
  lemma CodeIsExactIff(w: CellWidth, content: seq<Line>, o: FrameOptions)
    requires FrameCells(w, o.chars) && LinesFit(w, content, Max(Monus(o.width, 4), 1))
    requires o.bordered && o.paddingX == 1 && o.paddingY == 0 && content != []
    ensures AllWide(w, Framed(w, content, o), o.width) <==> o.width >= 5
  {
    hide Framed, LineWidth;
    FrameIsExactIff(w, content, o);
  }

  lemma TextPush(line: Line, span: StyledSpan)
    ensures LineText(PushStyled(line, span)) == LineText(line) + span.text
  {
    if span.text != [] {
      if line != [] && line[|line| - 1].style == span.style {
        var front, last := line[..|line| - 1], line[|line| - 1];
        assert (front + [StyledSpan(last.text + span.text, span.style)])[..|front|] == front;
      } else {
        assert (line + [span])[..|line|] == line;
      }
    }
  }

  lemma {:induction false} TextAppend(target: Line, source: Line)
    ensures LineText(AppendLine(target, source)) == LineText(target) + LineText(source)
  {
    if source != [] {
      TextAppend(target, source[..|source| - 1]);
      TextPush(AppendLine(target, source[..|source| - 1]), source[|source| - 1]);
    }
  }

  lemma {:induction false} TextBackground(line: Line, bg: Option<string>)
    ensures LineText(WithBackground(line, bg)) == LineText(line)
  {
    if line != [] {
      TextBackground(line[..|line| - 1], bg);
      assert WithBackground(line, bg)[..|line| - 1] == WithBackground(line[..|line| - 1], bg);
    }
  }

  lemma TextFill(w: CellWidth, line: Line, width: nat, bg: Option<string>)
    ensures LineText(FillLine(w, line, width, bg)) == LineText(line) + Spaces(Monus(width, LineWidth(w, line)))
  {
    hide WithBackground, PushStyled, LineWidth, LineText;
    TextBackground(line, bg);
    var used := LineWidth(w, line);
    if used < width {
      TextPush(WithBackground(line, bg), StyledSpan(Spaces(width - used), PLAIN.(bg := bg)));
    }
  }

  /** A padded line reads as the line itself, blanks around it. */
  function PaddedText(w: CellWidth, line: Line, o: FrameOptions): string {
    Spaces(o.paddingX) + (LineText(line) + Spaces(Monus(o.InnerWidth(), LineWidth(w, line)))) + Spaces(o.paddingX)
  }

  lemma TextPadded(w: CellWidth, line: Line, o: FrameOptions)
    ensures LineText(PaddedLine(w, line, o)) == PaddedText(w, line, o)
  {
    hide FillLine, PushStyled, AppendLine, LineText;
    var pad := StyledSpan(Spaces(o.paddingX), o.PadStyle());
    var filled := FillLine(w, line, o.InnerWidth(), o.background);
    TextFill(w, line, o.InnerWidth(), o.background);
    NoText();
    TextPush([], pad);
    TextAppend(PushStyled([], pad), filled);
    TextPush(AppendLine(PushStyled([], pad), filled), pad);
  }

  lemma NoText()
    ensures LineText([]) == []
  {
  }

  lemma {:induction false} BodyAt(w: CellWidth, content: seq<Line>, o: FrameOptions, n: nat, i: nat)
    requires i < n <= |content|
    ensures |BodyLines(w, content, o, n)| == o.paddingY + n
    ensures BodyLines(w, content, o, n)[o.paddingY + i] == PaddedLine(w, content[i], o)
  {
    hide PaddedLine, BlankBodyLine;
    BodyLength(w, content, o, n - 1);
    if i < n - 1 { BodyAt(w, content, o, n - 1, i); }
  }

  lemma {:induction false} BodyLength(w: CellWidth, content: seq<Line>, o: FrameOptions, n: nat)
    requires n <= |content|
    ensures |BodyLines(w, content, o, n)| == o.paddingY + n
  {
    hide PaddedLine, BlankBodyLine;
    if n > 0 { BodyLength(w, content, o, n - 1); }
  }

  lemma {:induction false} FramedAt(body: seq<Line>, o: FrameOptions, n: nat, i: nat)
    requires i < n <= |body|
    ensures |FramedLines(body, o, n)| == n && FramedLines(body, o, n)[i] == FramedLine(body[i], o)
  {
    hide FramedLine;
    FramedLength(body, o, n - 1);
    if i < n - 1 { FramedAt(body, o, n - 1, i); }
  }

  lemma {:induction false} FramedLength(body: seq<Line>, o: FrameOptions, n: nat)
    requires n <= |body|
    ensures |FramedLines(body, o, n)| == n
  {
    hide FramedLine;
    if n > 0 { FramedLength(body, o, n - 1); }
  }

  /** Line i of the content stands padded between the sides of the frame, below the top and its padding. */
  lemma FrameShowsContent(w: CellWidth, content: seq<Line>, o: FrameOptions, i: nat)
    requires i < |content|
    ensures var at := (if o.bordered then 1 else 0) + o.paddingY + i;
      && at < |Framed(w, content, o)|
      && LineText(Framed(w, content, o)[at]) ==
           if o.bordered then [o.chars.vertical] + PaddedText(w, content[i], o) + [o.chars.vertical]
           else PaddedText(w, content[i], o)
  {
    hide PaddedLine, BlankBodyLine, BodyLines, FramedLines, LineText, TopBorder, BottomBorder, AppendLine, PaddedText,
      PushStyled;
    var body := Body(w, content, o);
    BodyAt(w, content, o, |content|, i);
    var padded := PaddedLine(w, content[i], o);
    assert body[o.paddingY + i] == padded;
    TextPadded(w, content[i], o);
    if o.bordered {
      var side := StyledSpan([o.chars.vertical], o.SideStyle());
      FramedAt(body, o, |body|, o.paddingY + i);
      assert Framed(w, content, o)[1 + o.paddingY + i] == FramedLine(padded, o);
      NoText();
      TextPush([], side);
      TextAppend(PushStyled([], side), padded);
      TextPush(AppendLine(PushStyled([], side), padded), side);
    }
  }

  // ---- Columns ----------------------------------------------------------------------------

  function Total(widths: seq<nat>): nat {
    if widths == [] then 0 else Total(widths[..|widths| - 1]) + widths[|widths| - 1]
  }

  /** The fixed columns as they are used: never wider than what is available. */
  function ClampedTotal(fixed: seq<Option<nat>>, available: nat): nat {
    if fixed == [] then 0 else
      var last := fixed[|fixed| - 1];
      ClampedTotal(fixed[..|fixed| - 1], available) + (if last.Some? then Min(Max(last.value, 1), available) else 0)
  }

  predicate Positive(fixed: seq<Option<nat>>) {
    forall i :: 0 <= i < |fixed| && fixed[i].Some? ==> fixed[i].value >= 1
  }

  lemma {:induction false} SharedTotal(fixed: seq<Option<nat>>, available: nat, share: nat, spare: nat)
    requires share >= 1 || FlexCount(fixed) == 0
    ensures Total(ShareOut(fixed, available, share, spare))
         == ClampedTotal(fixed, available) + share * FlexCount(fixed) + Min(spare, FlexCount(fixed))
  {
    if fixed != [] {
      var front := fixed[..|fixed| - 1];
      SharedTotal(front, available, share, spare);
      var widths := ShareOut(fixed, available, share, spare);
      assert widths[..|fixed| - 1] == ShareOut(front, available, share, spare);
      assert share * (FlexCount(front) + 1) == share * FlexCount(front) + share;
    }
  }

  lemma {:induction false} Clamping(fixed: seq<Option<nat>>, available: nat)
    requires Positive(fixed)
    ensures ClampedTotal(fixed, available) <= FixedTotal(fixed)
    ensures ClampedTotal(fixed, available) == FixedTotal(fixed) || ClampedTotal(fixed, available) >= available
    ensures FixedTotal(fixed) <= available ==> ClampedTotal(fixed, available) == FixedTotal(fixed)
  {
    if fixed != [] { Clamping(fixed[..|fixed| - 1], available); }
  }

  lemma ShareIsExact(space: nat, count: nat)
    requires 0 < count <= space
    ensures space == (space / count) * count + space % count && space / count >= 1 && space % count < count
  {
    assert space == (space / count) * count + space % count;
  }

  lemma FlexibleColumnsFill(fixed: seq<Option<nat>>, available: nat)
    requires Positive(fixed) && FlexCount(fixed) > 0
    ensures Total(Columns(fixed, available)) >= available
    ensures Total(Columns(fixed, available)) == available <==> FixedTotal(fixed) + FlexCount(fixed) <= available
  {
    hide ShareOut, Total, FlexCount, FixedTotal, ClampedTotal;
    var flex, space := FlexCount(fixed), FlexSpace(fixed, available);
    ShareIsExact(space, flex);
    SharedTotal(fixed, available, space / flex, space % flex);
    Clamping(fixed, available);
    assert Total(Columns(fixed, available)) == ClampedTotal(fixed, available) + space;
  }

  /** Two or more columns with widths that ask for too much still get too much: each is only cut to the whole row. */
  lemma {:induction false} ClampedIsTooMuch(fixed: seq<Option<nat>>, available: nat)
    requires Positive(fixed) && FlexCount(fixed) == 0 && 1 <= available < FixedTotal(fixed)
    ensures |fixed| == 1 ==> ClampedTotal(fixed, available) == available
    ensures |fixed| >= 2 ==> ClampedTotal(fixed, available) > available
  {
    var front, last := fixed[..|fixed| - 1], fixed[|fixed| - 1];
    assert last == fixed[|fixed| - 1] && last.Some?;
    if |fixed| == 1 {
      assert front == [];
    } else {
      FixedCount(front, available);
      Clamping(front, available);
      if FixedTotal(front) > available { ClampedIsTooMuch(front, available); }
    }
  }

  lemma {:induction false} FixedCount(fixed: seq<Option<nat>>, available: nat)
    requires Positive(fixed) && FlexCount(fixed) == 0 && 1 <= available
    ensures ClampedTotal(fixed, available) >= |fixed| && FixedTotal(fixed) >= |fixed|
  {
    if fixed != [] { FixedCount(fixed[..|fixed| - 1], available); }
  }

  /**
   * The columns of a row fit if and only if what is fixed leaves a cell for each flexible column, or there is one
   * column alone. With a flexible column they then fill the row; without one they do if their widths add up to it.
   */
  lemma ColumnsFillIff(fixed: seq<Option<nat>>, available: nat)
    requires Positive(fixed) && 1 <= |fixed| <= available
    ensures Total(Columns(fixed, available)) <= available
      <==> FixedTotal(fixed) + FlexCount(fixed) <= available || (|fixed| == 1 && fixed[0].Some?)
    ensures FlexCount(fixed) > 0 ==>
      (Total(Columns(fixed, available)) == available <==> FixedTotal(fixed) + FlexCount(fixed) <= available)
    ensures FlexCount(fixed) == 0 ==>
      (Total(Columns(fixed, available)) == available
       <==> FixedTotal(fixed) == available || (|fixed| == 1 && FixedTotal(fixed) > available))
  {
    hide ShareOut, Total, FixedTotal, ClampedTotal;
    if FlexCount(fixed) > 0 {
      OneIsFlexible(fixed);
      hide FlexCount;
      FlexibleColumnsFill(fixed, available);
    } else {
      OneIsFlexible(fixed);
      hide FlexCount;
      SharedTotal(fixed, available, 0, 0);
      Clamping(fixed, available);
      if FixedTotal(fixed) > available { ClampedIsTooMuch(fixed, available); }
    }
  }

  lemma OneIsFlexible(fixed: seq<Option<nat>>)
    requires |fixed| >= 1
    ensures |fixed| == 1 ==> (fixed[0].Some? <==> FlexCount(fixed) == 0)
  {
    if |fixed| == 1 { assert fixed[..0] == []; }
  }

  /** A row of flexible columns only. */
  predicate AllFlexible(fixed: seq<Option<nat>>) { forall i :: 0 <= i < |fixed| ==> fixed[i].None? }

  lemma {:induction false} FlexibleCounts(fixed: seq<Option<nat>>)
    requires AllFlexible(fixed)
    ensures FlexCount(fixed) == |fixed| && FixedTotal(fixed) == 0
  {
    if fixed != [] { FlexibleCounts(fixed[..|fixed| - 1]); }
  }

  lemma {:induction false} SharesAreFair(fixed: seq<Option<nat>>, available: nat, share: nat, spare: nat)
    requires AllFlexible(fixed) && share >= 1
    ensures forall i :: 0 <= i < |fixed| ==>
      ShareOut(fixed, available, share, spare)[i] == share + (if i < spare then 1 else 0)
  {
    if fixed != [] {
      FlexibleCounts(fixed[..|fixed| - 1]);
      SharesAreFair(fixed[..|fixed| - 1], available, share, spare);
    }
  }

  /**
   * Columns without widths are at least a cell, differ by at most one, widest first, and fill the row with its gaps.
   */
  lemma FlexibleRowIsExact(width: nat, gap: Option<nat>, children: seq<ChildWidth>)
    requires children != [] && forall i :: 0 <= i < |children| ==> children[i].Flexible?
    requires RowColumns(width, gap, children).Some?
    ensures var widths := RowColumns(width, gap, children).value;
      && |widths| == |children|
      && Total(widths) + RowGap(gap, width) * (|children| - 1) == width
      && (forall i :: 0 <= i < |widths| ==> widths[i] >= 1)
      && (forall i, j :: 0 <= i <= j < |widths| ==> widths[j] <= widths[i] <= widths[j] + 1)
  {
    hide ShareOut, Total, FlexCount, FixedTotal;
    var available := Available(width, RowGap(gap, width), |children|);
    var fixed := ResolveAll(children, available);
    FlexibleCounts(fixed);
    FlexibleColumnsFill(fixed, available);
    ShareIsExact(FlexSpace(fixed, available), FlexCount(fixed));
    SharesAreFair(fixed, available, available / |fixed|, available % |fixed|);
  }

  predicate ColumnsFit(w: CellWidth, columns: seq<seq<Line>>, widths: seq<nat>)
    requires |columns| == |widths|
  {
    forall i :: 0 <= i < |columns| ==> LinesFit(w, columns[i], widths[i])
  }

  lemma {:induction false} MergedLineIsExact(w: CellWidth, columns: seq<seq<Line>>, widths: seq<nat>, gap: nat,
                                             row: nat)
    requires w(' ') == 1 && |columns| == |widths| && ColumnsFit(w, columns, widths)
    ensures LineWidth(w, MergedLine(w, columns, widths, gap, row)) == Total(widths) + gap * Monus(|columns|, 1)
  {
    hide PushStyled, AppendLine, FillLine, LineWidth, Marks;
    if columns == [] {
      EmptyWidth(w);
    } else {
      var last := |columns| - 1;
      var before := MergedLine(w, columns[..last], widths[..last], gap, row);
      MergedLineIsExact(w, columns[..last], widths[..last], gap, row);
      CellsRepeat(w, ' ', gap);
      PushKeeps(w, before, StyledSpan(Spaces(gap), PLAIN));
      var spaced := if last > 0 then PushStyled(before, StyledSpan(Spaces(gap), PLAIN)) else before;
      var line := if row < |columns[last]| then columns[last][row] else [];
      EmptyWidth(w);
      FillWidth(w, line, widths[last], None);
      AppendKeeps(w, spaced, FillLine(w, line, widths[last], None));
      GapStep(gap, last);
    }
  }

  /** What columns 0..n show on one row, left to right. */
  function RowMarks(columns: seq<seq<Line>>, row: nat): seq<Mark> {
    if columns == [] then [] else
      var last := columns[|columns| - 1];
      RowMarks(columns[..|columns| - 1], row) + (if row < |last| then Marks(last[row]) else [])
  }

  lemma BlanksDoNotShow(n: nat)
    ensures TextMarks(Spaces(n), PLAIN) == []
  {
    PlainSpaces(Spaces(n), PLAIN);
  }

  lemma FillShows(w: CellWidth, line: Line, width: nat)
    ensures Marks(FillLine(w, line, width, None)) == Marks(line)
  {
    hide PushStyled, Marks, TextMarks;
    assert WithBackground(line, None) == line;
    var used := LineWidth(w, line);
    if used < width {
      PushKeeps(w, line, StyledSpan(Spaces(width - used), PLAIN));
      BlanksDoNotShow(width - used);
    }
  }

  lemma ColumnShows(w: CellWidth, before: Line, line: Line, width: nat, gap: nat, first: bool)
    ensures Marks(AppendLine(if first then before else PushStyled(before, StyledSpan(Spaces(gap), PLAIN)),
                             FillLine(w, line, width, None))) == Marks(before) + Marks(line)
  {
    hide *;
    var gapped := PushStyled(before, StyledSpan(Spaces(gap), PLAIN));
    PushKeeps(w, before, StyledSpan(Spaces(gap), PLAIN));
    BlanksDoNotShow(gap);
    FillShows(w, line, width);
    AppendKeeps(w, if first then before else gapped, FillLine(w, line, width, None));
  }

  /** A merged line shows what its columns show on that row, in column order. */
  lemma {:induction false} MergedLineShows(w: CellWidth, columns: seq<seq<Line>>, widths: seq<nat>, gap: nat, row: nat)
    requires |columns| == |widths|
    ensures Marks(MergedLine(w, columns, widths, gap, row)) == RowMarks(columns, row)
  {
    hide PushStyled, AppendLine, FillLine, LineWidth, TextMarks, Marks;
    NothingMarked();
    if columns != [] {
      var last := |columns| - 1;
      MergedLineShows(w, columns[..last], widths[..last], gap, row);
      ColumnShows(w, MergedLine(w, columns[..last], widths[..last], gap, row),
        if row < |columns[last]| then columns[last][row] else [], widths[last], gap, last == 0);
    }
  }

  lemma NothingMarked()
    ensures Marks([]) == []
  {
  }

  lemma EmptyWidth(w: CellWidth)
    ensures LineWidth(w, []) == 0
  {
  }

  lemma GapStep(gap: nat, last: nat)
    ensures gap * last == gap * Monus(last, 1) + (if last > 0 then gap else 0)
  {
    if last > 0 { assert gap * last == gap * (last - 1) + gap; }
  }

  /** Every line of a flexible row whose children fit their columns is exactly as wide as the row. */
  lemma FlexibleRowLinesAreExact(w: CellWidth, width: nat, gap: Option<nat>, children: seq<ChildWidth>,
                                 columns: seq<seq<Line>>)
    requires children != [] && forall i :: 0 <= i < |children| ==> children[i].Flexible?
    requires RowColumns(width, gap, children).Some? && |columns| == |children|
    requires w(' ') == 1 && ColumnsFit(w, columns, RowColumns(width, gap, children).value)
    ensures AllWide(w, MergeColumns(w, columns, RowColumns(width, gap, children).value, RowGap(gap, width)), width)
  {
    hide LineWidth, Total, MergedLine, RowColumns;
    var widths := RowColumns(width, gap, children).value;
    FlexibleRowIsExact(width, gap, children);
    forall row: nat | row < Tallest(columns)
      ensures LineWidth(w, MergedLine(w, columns, widths, RowGap(gap, width), row)) == width
    {
      MergedLineIsExact(w, columns, widths, RowGap(gap, width), row);
    }
  }

  /**
   * Room for every column of a row: what is fixed leaves a cell for each flexible one, or there is one column alone.
   */
  predicate HasRoom(children: seq<ChildWidth>, available: nat) {
    var fixed := ResolveAll(children, available);
    FixedTotal(fixed) + FlexCount(fixed) <= available || (|children| == 1 && !children[0].Flexible?)
  }

  /** The lines of any row whose children fit their columns fit the row if and only if there is room for the columns. */
  lemma RowLinesFitIff(w: CellWidth, width: nat, gap: Option<nat>, children: seq<ChildWidth>, columns: seq<seq<Line>>)
    requires children != [] && RowColumns(width, gap, children).Some? && |columns| == |children| && Tallest(columns) > 0
    requires w(' ') == 1 && ColumnsFit(w, columns, RowColumns(width, gap, children).value)
    ensures LinesFit(w, MergeColumns(w, columns, RowColumns(width, gap, children).value, RowGap(gap, width)), width)
      <==> HasRoom(children, Available(width, RowGap(gap, width), |children|))
  {
    hide LineWidth, Total, MergedLine, FixedTotal, FlexCount, Columns, Tallest;
    var g := RowGap(gap, width);
    var available := Available(width, g, |children|);
    var fixed, widths := ResolveAll(children, available), RowColumns(width, gap, children).value;
    ColumnsFillIff(fixed, available);
    forall row: nat | row < Tallest(columns)
      ensures LineWidth(w, MergedLine(w, columns, widths, g, row)) == Total(widths) + g * (|columns| - 1)
    {
      MergedLineIsExact(w, columns, widths, g, row);
    }
    var lines := MergeColumns(w, columns, widths, g);
    assert lines[0] == MergedLine(w, columns, widths, g, 0);
    assert width == available + g * (|children| - 1);
  }

  lemma FullColumns(fixed: seq<Option<nat>>)
    requires fixed == [Some(20), Some(20)]
    ensures Columns(fixed, 20) == [20, 20]
  {
    var first := fixed[..1];
    assert first == [Some(20)] && first[..0] == [];
    assert FlexCount(first) == 0 && FlexCount(fixed) == 0;
    assert ShareOut(first, 20, 0, 0) == [20];
  }

  /** Two columns that each ask for all of a row of 21 cells get 20 each, and with the gap a line of 41. */
  lemma FullWidthsOverflow(w: CellWidth, columns: seq<seq<Line>>, row: nat)
    requires w(' ') == 1 && |columns| == 2 && ColumnsFit(w, columns, [20, 20])
    ensures RowColumns(21, Some(1), [Percent(100), Percent(100)]) == Some([20, 20])
    ensures LineWidth(w, MergedLine(w, columns, [20, 20], 1, row)) == 41
  {
    hide LineWidth, MergedLine, ColumnsFit;
    var fixed := ResolveAll([Percent(100), Percent(100)], 20);
    assert fixed == [Some(20), Some(20)];
    FullColumns(fixed);
    MergedLineIsExact(w, columns, [20, 20], 1, row);
    assert [20, 20][..1] == [20] && [20][..0] == [];
    assert Total([20, 20]) == 40;
  }
}
