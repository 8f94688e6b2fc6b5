/** Laying STML out in cells: wrapping styled spans, framing boxes and dividing rows into columns. */
module StmlLayout {
  import opened Text
  import opened DiffModel

  datatype Style = Style(fg: Option<string>, bg: Option<string>, bold: bool, italic: bool,
                         underline: bool, strike: bool, dim: bool)

  const PLAIN := Style(None, None, false, false, false, false, false)

  datatype StyledSpan = StyledSpan(text: string, style: Style)

  type Line = seq<StyledSpan>

  function PushStyled(line: Line, span: StyledSpan): Line {
    if span.text == [] then line
    else if line != [] && line[|line| - 1].style == span.style then
      line[..|line| - 1] + [StyledSpan(line[|line| - 1].text + span.text, span.style)]
    else line + [span]
  }

  function AppendLine(target: Line, source: Line): Line {
    if source == [] then target
    else PushStyled(AppendLine(target, source[..|source| - 1]), source[|source| - 1])
  }

  function LineText(line: Line): string {
    if line == [] then [] else LineText(line[..|line| - 1]) + line[|line| - 1].text
  }

  function LineWidth(w: CellWidth, line: Line): nat {
    if line == [] then 0 else LineWidth(w, line[..|line| - 1]) + Cells(w, line[|line| - 1].text)
  }

  /** Drops trailing spaces that have no background. */
  function TrimPlainEnd(line: Line): Line {
    if line == [] then [] else
      var front, last := line[..|line| - 1], line[|line| - 1];
      if last.style.bg.Some? then line
      else if TrimSpaces(last.text) == [] then TrimPlainEnd(front)
      else front + [StyledSpan(TrimSpaces(last.text), last.style)]
  }

  function TrimSpaces(s: string): string {
    if s == [] || s[|s| - 1] != ' ' then s else TrimSpaces(s[..|s| - 1])
  }

  /** Length of the longest prefix of at most `width` cells. */
  function FittingPrefix(w: CellWidth, s: string, width: nat): (n: nat)
    ensures n <= |s|
  {
    if s == [] || w(s[0]) > width then 0 else 1 + FittingPrefix(w, s[1..], width - w(s[0]))
  }

  // ---- Tokens -----------------------------------------------------------------------------

  datatype TokenKind = Word | Space | Break

  datatype Token = Token(span: StyledSpan, kind: TokenKind, width: nat)

  /** Tokens so far, and the run being collected with its kind. */
  datatype Scanner = Scanner(tokens: seq<Token>, run: string, mode: Option<TokenKind>)

  function KindOfChar(c: char): TokenKind { if c == '\n' then Break else if c == ' ' then Space else Word }

  /** Spaces with a background are visible, so they wrap like words. */
  function FlushRun(w: CellWidth, s: Scanner, style: Style): Scanner {
    if s.mode.None? then s else
      var kind := if s.mode.value == Space && style.bg.Some? then Word else s.mode.value;
      Scanner(s.tokens + [Token(StyledSpan(s.run, style), kind, Cells(w, s.run))], [], None)
  }

  function ScanChar(w: CellWidth, s: Scanner, style: Style, c: char): Scanner {
    var kind := KindOfChar(c);
    if c == '\n' then
      var flushed := FlushRun(w, s, style);
      flushed.(tokens := flushed.tokens + [Token(StyledSpan("\n", style), Break, 0)])
    else if s.mode.Some? && s.mode.value != kind then
      Scanner(FlushRun(w, s, style).tokens, [c], Some(kind))
    else s.(run := s.run + [c], mode := Some(kind))
  }

  function ScanText(w: CellWidth, s: Scanner, style: Style, text: string): Scanner {
    if text == [] then s else ScanChar(w, ScanText(w, s, style, text[..|text| - 1]), style, text[|text| - 1])
  }

  function Tokens(w: CellWidth, spans: seq<StyledSpan>): seq<Token> {
    if spans == [] then [] else
      var last := spans[|spans| - 1];
      FlushRun(w, ScanText(w, Scanner(Tokens(w, spans[..|spans| - 1]), [], None), last.style, last.text),
        last.style).tokens
  }

  method Tokenize(w: CellWidth, spans: seq<StyledSpan>) returns (output: seq<Token>)
    ensures output == Tokens(w, spans)
  {
    output := [];
    for i := 0 to |spans|
      invariant output == Tokens(w, spans[..i])
    {
      var span := spans[i];
      assert spans[..i + 1][..i] == spans[..i];
      var scanner := Scanner(output, [], None);
      ghost var start := scanner;
      for j := 0 to |span.text|
        invariant scanner == ScanText(w, start, span.style, span.text[..j])
      {
        hide ScanChar;
        assert span.text[..j + 1][..j] == span.text[..j];
        scanner := ScanChar(w, scanner, span.style, span.text[j]);
      }
      assert span.text[..|span.text|] == span.text;
      output := FlushRun(w, scanner, span.style).tokens;
    }
    assert spans[..|spans|] == spans;
  }

  // ---- Wrapping ---------------------------------------------------------------------------

  datatype Flow = Flow(lines: seq<Line>, current: Line, used: nat, started: bool)

  function FlushLine(f: Flow): Flow { Flow(f.lines + [TrimPlainEnd(f.current)], [], 0, f.started) }

  /** Breaks a word that is wider than a line; a character wider than the line stops the breaking. */
  function SplitWord(w: CellWidth, width: nat, lines: seq<Line>, current: Line, rest: string,
                     style: Style): (Flow, string)
    decreases |rest|
  {
    var n := FittingPrefix(w, rest, width);
    if Cells(w, rest) <= width || n == 0 then (Flow(lines, current, 0, false), rest)
    else
      var line := PushStyled(current, StyledSpan(rest[..n], style));
      SplitWord(w, width, lines + [TrimPlainEnd(line)], [], rest[n..], style)
  }

  function PlaceWide(w: CellWidth, width: nat, f: Flow, token: Token): Flow {
    var begun := if f.started then FlushLine(f) else f;
    var (split, rest) := SplitWord(w, width, begun.lines, begun.current, token.span.text, token.span.style);
    if rest == [] then Flow(split.lines, split.current, begun.used, false)
    else Flow(split.lines, PushStyled(split.current, StyledSpan(rest, token.span.style)), Cells(w, rest), true)
  }

  function PlaceToken(w: CellWidth, width: nat, f: Flow, token: Token): Flow {
    match token.kind
    case Break => FlushLine(f).(started := false)
    case Space =>
      if !f.started then f
      else if f.used + token.width > width then FlushLine(f).(started := false)
      else f.(current := PushStyled(f.current, token.span), used := f.used + token.width)
    case Word =>
      if f.used + token.width <= width
      then f.(current := PushStyled(f.current, token.span), used := f.used + token.width, started := true)
      else PlaceWide(w, width, f, token)
  }

  function PlaceTokens(w: CellWidth, width: nat, tokens: seq<Token>): Flow {
    if tokens == [] then Flow([], [], 0, false)
    else PlaceToken(w, width, PlaceTokens(w, width, tokens[..|tokens| - 1]), tokens[|tokens| - 1])
  }

  function FinishFlow(f: Flow): seq<Line> {
    if f.current != [] || f.lines == [] then f.lines + [TrimPlainEnd(f.current)] else f.lines
  }

  function Wrapped(w: CellWidth, spans: seq<StyledSpan>, width: nat): seq<Line> {
    FinishFlow(PlaceTokens(w, width, Tokens(w, spans)))
  }

  method SplitWideWord(w: CellWidth, width: nat, lines0: seq<Line>, current0: Line, text: string, style: Style)
    returns (lines: seq<Line>, current: Line, rest: string)
    ensures SplitWord(w, width, lines0, current0, text, style) == (Flow(lines, current, 0, false), rest)
  {
    lines, current, rest := lines0, current0, text;
    while Cells(w, rest) > width
      invariant SplitWord(w, width, lines, current, rest, style) == SplitWord(w, width, lines0, current0, text, style)
      decreases |rest|
    {
      var n := FittingPrefix(w, rest, width);
      if n == 0 {
        break;
      }
      current := PushStyled(current, StyledSpan(rest[..n], style));
      lines := lines + [TrimPlainEnd(current)];
      current := [];
      rest := rest[n..];
    }
  }

  method WrapSpans(w: CellWidth, spans: seq<StyledSpan>, width: nat) returns (lines: seq<Line>)
    ensures lines == Wrapped(w, spans, width)
  {
    var tokens := Tokenize(w, spans);
    lines := [];
    var current: Line, used: nat, started := [], 0, false;
    for i := 0 to |tokens|
      invariant Flow(lines, current, used, started) == PlaceTokens(w, width, tokens[..i])
    {
      hide Tokens, TrimPlainEnd, SplitWord;
      var token := tokens[i];
      assert tokens[..i + 1][..i] == tokens[..i];
      match token.kind {
        case Break =>
          lines, current, used, started := lines + [TrimPlainEnd(current)], [], 0, false;
        case Space =>
          if !started {
          } else if used + token.width > width {
            lines, current, used, started := lines + [TrimPlainEnd(current)], [], 0, false;
          } else {
            current, used := PushStyled(current, token.span), used + token.width;
          }
        case Word =>
          if used + token.width <= width {
            current, used, started := PushStyled(current, token.span), used + token.width, true;
          } else {
            if started {
              lines, current, used := lines + [TrimPlainEnd(current)], [], 0;
            }
            var rest;
            lines, current, rest := SplitWideWord(w, width, lines, current, token.span.text, token.span.style);
            if rest == [] {
              started := false;
            } else {
              current := PushStyled(current, StyledSpan(rest, token.span.style));
              used, started := Cells(w, rest), true;
            }
          }
      }
    }
    assert tokens[..|tokens|] == tokens;
    if current != [] || lines == [] {
      lines := lines + [TrimPlainEnd(current)];
    }
  }

  // ---- Framing ----------------------------------------------------------------------------

  datatype BorderChars = BorderChars(topLeft: char, topRight: char, bottomLeft: char, bottomRight: char,
                                     horizontal: char, vertical: char)

  datatype FrameOptions = FrameOptions(width: nat, bordered: bool, chars: BorderChars, borderColor: string,
                                       title: Option<string>, titleColor: string, background: Option<string>,
                                       paddingX: nat, paddingY: nat)
  {
    function InnerWidth(): nat { Max(Monus(width, (if bordered then 2 else 0) + 2 * paddingX), 1) }

    function PadStyle(): Style { PLAIN.(bg := background) }

    function BorderStyle(): Style { PLAIN.(fg := Some(borderColor)) }

    function SideStyle(): Style { PLAIN.(fg := Some(borderColor), bg := background) }
  }

  function Spaces(n: nat): string { Repeat(' ', n) }

  function WithBackground(line: Line, bg: Option<string>): (filled: Line)
    ensures |filled| == |line|
  {
    seq(|line|, i requires 0 <= i < |line| =>
      if bg.Some? && line[i].style.bg.None? then line[i].(style := line[i].style.(bg := bg)) else line[i])
  }

  function FillLine(w: CellWidth, line: Line, width: nat, bg: Option<string>): Line {
    var used := LineWidth(w, line);
    if used < width then PushStyled(WithBackground(line, bg), StyledSpan(Spaces(width - used), PLAIN.(bg := bg)))
    else WithBackground(line, bg)
  }

  function PaddedLine(w: CellWidth, line: Line, o: FrameOptions): Line {
    var pad := StyledSpan(Spaces(o.paddingX), o.PadStyle());
    PushStyled(AppendLine(PushStyled([], pad), FillLine(w, line, o.InnerWidth(), o.background)), pad)
  }

  function BlankBodyLine(o: FrameOptions): Line {
    [StyledSpan(Spaces(o.InnerWidth() + 2 * o.paddingX), o.PadStyle())]
  }

  function BodyLines(w: CellWidth, content: seq<Line>, o: FrameOptions, n: nat): seq<Line>
    requires n <= |content|
  {
    if n == 0 then seq(o.paddingY, _ => BlankBodyLine(o))
    else BodyLines(w, content, o, n - 1) + [PaddedLine(w, content[n - 1], o)]
  }

  function Body(w: CellWidth, content: seq<Line>, o: FrameOptions): seq<Line> {
    BodyLines(w, content, o, |content|) + seq(o.paddingY, _ => BlankBodyLine(o))
  }

  function TopBorder(w: CellWidth, o: FrameOptions): Line {
    var across := Monus(o.width, 2);
    if o.title.Some? && Trim(o.title.value) != [] then
      var text := " " + Trim(o.title.value) + " ";
      var name := text[..FittingPrefix(w, text, Monus(across, 2))];
      PushStyled(
        PushStyled(
          PushStyled([], StyledSpan([o.chars.topLeft, o.chars.horizontal], o.BorderStyle())),
          StyledSpan(name, PLAIN.(fg := Some(o.titleColor), bold := true))),
        StyledSpan(Repeat(o.chars.horizontal, Monus(across, 1 + Cells(w, name))) + [o.chars.topRight], o.BorderStyle()))
    else
      PushStyled([], StyledSpan([o.chars.topLeft] + Repeat(o.chars.horizontal, across) + [o.chars.topRight],
        o.BorderStyle()))
  }

  function BottomBorder(o: FrameOptions): Line {
    [StyledSpan([o.chars.bottomLeft] + Repeat(o.chars.horizontal, Monus(o.width, 2)) + [o.chars.bottomRight],
      o.BorderStyle())]
  }

  function FramedLine(line: Line, o: FrameOptions): Line {
    var side := StyledSpan([o.chars.vertical], o.SideStyle());
    PushStyled(AppendLine(PushStyled([], side), line), side)
  }

  function FramedLines(body: seq<Line>, o: FrameOptions, n: nat): seq<Line>
    requires n <= |body|
  {
    if n == 0 then [] else FramedLines(body, o, n - 1) + [FramedLine(body[n - 1], o)]
  }

  function Framed(w: CellWidth, content: seq<Line>, o: FrameOptions): seq<Line> {
    var body := Body(w, content, o);
    if !o.bordered then body
    else [TopBorder(w, o)] + FramedLines(body, o, |body|) + [BottomBorder(o)]
  }

  method FrameLines(w: CellWidth, content: seq<Line>, o: FrameOptions) returns (result: seq<Line>)
    ensures result == Framed(w, content, o)
  {
    hide PaddedLine, FramedLine, TopBorder, BottomBorder, BlankBodyLine;
    var body := seq(o.paddingY, _ => BlankBodyLine(o));
    for i := 0 to |content|
      invariant body == BodyLines(w, content, o, i)
    {
      body := body + [PaddedLine(w, content[i], o)];
    }
    body := body + seq(o.paddingY, _ => BlankBodyLine(o));
    if !o.bordered {
      return body;
    }
    result := [TopBorder(w, o)];
    for i := 0 to |body|
      invariant result == [TopBorder(w, o)] + FramedLines(body, o, i)
    {
      result := result + [FramedLine(body[i], o)];
    }
    result := result + [BottomBorder(o)];
  }

  // ---- Rows of columns --------------------------------------------------------------------

  function FixedTotal(fixed: seq<Option<nat>>): nat {
    if fixed == [] then 0 else
      var last := fixed[|fixed| - 1];
      FixedTotal(fixed[..|fixed| - 1]) + (if last.Some? then last.value else 0)
  }

  function FlexCount(fixed: seq<Option<nat>>): nat {
    if fixed == [] then 0
    else FlexCount(fixed[..|fixed| - 1]) + (if fixed[|fixed| - 1].None? then 1 else 0)
  }

  function FlexSpace(fixed: seq<Option<nat>>, available: nat): nat {
    Max(Monus(available, FixedTotal(fixed)), FlexCount(fixed))
  }

  function ColumnWidth(fixed: Option<nat>, available: nat, share: nat, extra: bool): nat {
    if fixed.Some? then Min(Max(fixed.value, 1), available)
    else Max(share + (if extra then 1 else 0), 1)
  }

  /** The first `spare` flexible columns get one cell more than the others. */
  function ShareOut(fixed: seq<Option<nat>>, available: nat, share: nat, spare: nat): (widths: seq<nat>)
    ensures |widths| == |fixed|
  {
    if fixed == [] then [] else
      var front := fixed[..|fixed| - 1];
      ShareOut(front, available, share, spare)
        + [ColumnWidth(fixed[|fixed| - 1], available, share, FlexCount(front) < spare)]
  }

  function Columns(fixed: seq<Option<nat>>, available: nat): (widths: seq<nat>)
    ensures |widths| == |fixed|
  {
    var flex, space := FlexCount(fixed), FlexSpace(fixed, available);
    ShareOut(fixed, available, if flex == 0 then 0 else space / flex, if flex == 0 then 0 else space % flex)
  }

  /** Widths of a row's columns: fixed ones clamped, the rest of the space shared out, leftovers first. */
  method ColumnWidths(fixed: seq<Option<nat>>, available: nat) returns (widths: seq<nat>)
    ensures widths == Columns(fixed, available)
  {
    var flexCount, space := FlexCount(fixed), FlexSpace(fixed, available);
    var share: nat := if flexCount == 0 then 0 else space / flexCount;
    var remainder: nat := if flexCount == 0 then 0 else space % flexCount;
    ghost var spare := remainder;
    widths := [];
    for i := 0 to |fixed|
      invariant remainder == Monus(spare, FlexCount(fixed[..i]))
      invariant widths == ShareOut(fixed[..i], available, share, spare)
    {
      assert fixed[..i + 1][..i] == fixed[..i];
      if fixed[i].Some? {
        widths := widths + [Min(Max(fixed[i].value, 1), available)];
      } else {
        var extra := if remainder > 0 then 1 else 0;
        remainder := Monus(remainder, extra);
        widths := widths + [Max(share + extra, 1)];
      }
    }
    assert fixed[..|fixed|] == fixed;
  }

  /** A child's `width` attribute: absent, in cells, or a percentage of what is available. */
  datatype ChildWidth = Flexible | InCells(cells: nat) | Percent(percent: nat)

  function Resolve(width: ChildWidth, available: nat): Option<nat> {
    match width
    case Flexible => None
    case InCells(cells) => Some(Max(cells, 1))
    case Percent(percent) => Some(Max(available * percent / 100, 1))
  }

  function ResolveAll(children: seq<ChildWidth>, available: nat): (fixed: seq<Option<nat>>)
    ensures |fixed| == |children|
  {
    seq(|children|, i requires 0 <= i < |children| => Resolve(children[i], available))
  }

  function RowGap(gap: Option<nat>, width: nat): nat { Min(if gap.Some? then gap.value else 1, width) }

  /** What a row leaves for its columns once the gaps are taken. */
  function Available(width: nat, gap: nat, count: nat): nat { Monus(width, gap * Monus(count, 1)) }

  /** The columns of a row, or nothing when it is too narrow and its children are stacked instead. */
  function RowColumns(width: nat, gap: Option<nat>, children: seq<ChildWidth>): Option<seq<nat>> {
    var available := Available(width, RowGap(gap, width), |children|);
    if available < |children| then None else Some(Columns(ResolveAll(children, available), available))
  }

  /** One line of a row: each column's line padded to its width, `gap` cells between columns. */
  function MergedLine(w: CellWidth, columns: seq<seq<Line>>, widths: seq<nat>, gap: nat, row: nat): Line
    requires |columns| == |widths|
  {
    if columns == [] then [] else
      var last := |columns| - 1;
      var before := MergedLine(w, columns[..last], widths[..last], gap, row);
      var spaced := if last > 0 then PushStyled(before, StyledSpan(Spaces(gap), PLAIN)) else before;
      AppendLine(spaced, FillLine(w, if row < |columns[last]| then columns[last][row] else [], widths[last], None))
  }

  function Tallest(columns: seq<seq<Line>>): nat {
    if columns == [] then 0 else Max(Tallest(columns[..|columns| - 1]), |columns[|columns| - 1]|)
  }

  function MergeColumns(w: CellWidth, columns: seq<seq<Line>>, widths: seq<nat>, gap: nat): seq<Line>
    requires |columns| == |widths|
  {
    seq(Tallest(columns), row requires 0 <= row => MergedLine(w, columns, widths, gap, row))
  }
}
