/** Where wrapped lines come from: every line is a stretch of the text, and breaks are at newlines or forced. */
module StmlSpacing {
  import opened Text
  import opened DiffModel
  import opened StmlLayout
  import opened StmlLayoutProofs

  // ---- Streams ----------------------------------------------------------------------------

  function TextStream(text: string, style: Style): (marks: seq<Mark>)
    ensures |marks| == |text|
  {
    seq(|text|, i requires 0 <= i < |text| => (text[i], style))
  }

  /** All characters of a line of spans with their styles, blanks and newlines included. */
  function Stream(line: Line): seq<Mark> {
    if line == [] then []
    else Stream(line[..|line| - 1]) + TextStream(line[|line| - 1].text, line[|line| - 1].style)
  }

  function TokenStream(tokens: seq<Token>): seq<Mark> {
    if tokens == [] then [] else
      var last := tokens[|tokens| - 1].span;
      TokenStream(tokens[..|tokens| - 1]) + TextStream(last.text, last.style)
  }

  lemma StreamSnoc(line: Line, span: StyledSpan)
    ensures Stream(line + [span]) == Stream(line) + TextStream(span.text, span.style)
  {
    assert (line + [span])[..|line|] == line;
  }

  lemma StreamPush(line: Line, span: StyledSpan)
    ensures Stream(PushStyled(line, span)) == Stream(line) + TextStream(span.text, span.style)
  {
    if span.text == [] {
    } else if line != [] && line[|line| - 1].style == span.style {
      var front, last := line[..|line| - 1], line[|line| - 1];
      StreamSnoc(front, StyledSpan(last.text + span.text, span.style));
      assert TextStream(last.text + span.text, span.style)
          == TextStream(last.text, span.style) + TextStream(span.text, span.style);
    } else {
      StreamSnoc(line, span);
    }
  }

  lemma TokenStreamSnoc(tokens: seq<Token>, t: Token)
    ensures TokenStream(tokens + [t]) == TokenStream(tokens) + TextStream(t.span.text, t.span.style)
  {
    assert (tokens + [t])[..|tokens|] == tokens;
  }

  function Scanned(s: Scanner, style: Style): seq<Mark> { TokenStream(s.tokens) + TextStream(s.run, style) }

  lemma FlushScans(w: CellWidth, s: Scanner, style: Style)
    requires s.mode.None? ==> s.run == []
    ensures var after := FlushRun(w, s, style);
      Scanned(after, style) == Scanned(s, style) && after.run == [] && after.mode.None?
    ensures TokenStream(FlushRun(w, s, style).tokens) == Scanned(s, style)
  {
    if s.mode.Some? {
      var kind := if s.mode.value == Space && style.bg.Some? then Word else s.mode.value;
      TokenStreamSnoc(s.tokens, Token(StyledSpan(s.run, style), kind, Cells(w, s.run)));
    }
  }

  lemma CharScans(w: CellWidth, s: Scanner, style: Style, c: char)
    requires s.mode.None? ==> s.run == []
    ensures var after := ScanChar(w, s, style, c);
      Scanned(after, style) == Scanned(s, style) + [(c, style)] && (after.mode.None? ==> after.run == [])
  {
    hide FlushRun, TokenStream;
    var flushed := FlushRun(w, s, style);
    FlushScans(w, s, style);
    if c == '\n' {
      TokenStreamSnoc(flushed.tokens, Token(StyledSpan("\n", style), Break, 0));
      assert TextStream("\n", style) == [('\n', style)];
    } else if s.mode.Some? && s.mode.value != KindOfChar(c) {
      assert TextStream([c], style) == [(c, style)];
    } else {
      assert TextStream(s.run + [c], style) == TextStream(s.run, style) + [(c, style)];
    }
  }

  lemma TextPush(text: string, c: char, style: Style)
    ensures TextStream(text + [c], style) == TextStream(text, style) + [(c, style)]
  {
  }

  lemma {:induction false} TextScans(w: CellWidth, s: Scanner, style: Style, text: string)
    requires s.mode.None? ==> s.run == []
    ensures var after := ScanText(w, s, style, text);
      Scanned(after, style) == Scanned(s, style) + TextStream(text, style) && (after.mode.None? ==> after.run == [])
    decreases |text|
  {
    hide ScanChar, Scanned;
    if text == [] {
      assert Scanned(s, style) + TextStream(text, style) == Scanned(s, style);
    } else {
      var front, c := text[..|text| - 1], text[|text| - 1];
      TextScans(w, s, style, front);
      CharScans(w, ScanText(w, s, style, front), style, c);
      TextPush(front, c, style);
      assert text == front + [c];
      assert Scanned(s, style) + TextStream(front, style) + [(c, style)]
          == Scanned(s, style) + (TextStream(front, style) + [(c, style)]);
    }
  }

  /** Tokens are the text cut up: nothing is left out, blanks and newlines included. */
  lemma {:induction false} TokensAreTheText(w: CellWidth, spans: seq<StyledSpan>)
    ensures TokenStream(Tokens(w, spans)) == Stream(spans)
  {
    if spans != [] {
      hide ScanText, FlushRun;
      var front, last := spans[..|spans| - 1], spans[|spans| - 1];
      TokensAreTheText(w, front);
      var start := Scanner(Tokens(w, front), [], None);
      TextScans(w, start, last.style, last.text);
      FlushScans(w, ScanText(w, start, last.style, last.text), last.style);
      assert Scanned(start, last.style) == TokenStream(Tokens(w, front));
    }
  }

  // ---- Cutting ----------------------------------------------------------------------------

  function Width(w: CellWidth, marks: seq<Mark>): nat {
    if marks == [] then 0 else Width(w, marks[..|marks| - 1]) + w(marks[|marks| - 1].0)
  }

  predicate Hidden(m: Mark) { !Shows(m.0, m.1) }

  predicate HasBreak(marks: seq<Mark>) { exists i :: 0 <= i < |marks| && marks[i].0 == '\n' }

  predicate OneBreakAtMost(marks: seq<Mark>) {
    forall i, j :: 0 <= i < j < |marks| ==> !(marks[i].0 == '\n' && marks[j].0 == '\n')
  }

  /** What lies between two lines: nothing that shows, and one newline at most. */
  ghost predicate Gap(s: seq<Mark>, a: nat, b: nat) {
    a <= b <= |s| && (forall i :: a <= i < b ==> Hidden(s[i])) && OneBreakAtMost(s[a..b])
  }

  /** A line is this stretch of the text, without a newline. */
  ghost predicate IsStretch(s: seq<Mark>, line: Line, cut: (nat, nat)) {
    cut.0 <= cut.1 <= |s| && Stream(line) == s[cut.0..cut.1] && !HasBreak(s[cut.0..cut.1])
  }

  /** Where the word at `at` ends: at the next character that does not show, or at the end of the text. */
  function WordStop(s: seq<Mark>, at: nat): (stop: nat)
    requires at <= |s|
    ensures at <= stop <= |s|
    ensures forall i :: at <= i < stop ==> !Hidden(s[i])
    decreases |s| - at
  {
    if at == |s| || Hidden(s[at]) then at else WordStop(s, at + 1)
  }

  /** A line may end where a newline is, or where it and the next word together are too wide. */
  ghost predicate MayBreak(w: CellWidth, width: nat, s: seq<Mark>, cut: (nat, nat), next: nat) {
    cut.0 <= cut.1 <= next <= |s|
    && (HasBreak(s[cut.1..next]) || Width(w, s[cut.0..WordStop(s, next)]) > width)
  }

  function End(cuts: seq<(nat, nat)>): nat { if cuts == [] then 0 else cuts[|cuts| - 1].1 }

  ghost predicate CutsOk(w: CellWidth, width: nat, s: seq<Mark>, lines: seq<Line>, cuts: seq<(nat, nat)>) {
    && |cuts| == |lines|
    && (forall k :: 0 <= k < |lines| ==> IsStretch(s, lines[k], cuts[k]) && Gap(s, End(cuts[..k]), cuts[k].0))
    && (forall k :: 0 < k < |lines| ==> MayBreak(w, width, s, cuts[k - 1], cuts[k].0))
  }

  /** After the first p characters: the finished lines, and the one being filled from c on. */
  ghost predicate Cut(w: CellWidth, width: nat, s: seq<Mark>, p: nat, f: Flow, cuts: seq<(nat, nat)>, c: nat) {
    && c <= p <= |s| && CutsOk(w, width, s, f.lines, cuts) && Gap(s, End(cuts), c)
    && IsStretch(s, f.current, (c, p)) && f.used == Width(w, s[c..p])
    && (!f.started ==> c == p && f.current == []) && (f.current != [] ==> c < p)
    && (cuts != [] ==>
      cuts[|cuts| - 1].0 < p &&
      if f.started then MayBreak(w, width, s, cuts[|cuts| - 1], c)
      else Breaking(w, width, s, cuts[|cuts| - 1], p))
  }

  /** Enough was read after a line to end it. */
  ghost predicate Breaking(w: CellWidth, width: nat, s: seq<Mark>, cut: (nat, nat), p: nat) {
    cut.0 <= cut.1 <= p <= |s| && (HasBreak(s[cut.1..p]) || Width(w, s[cut.0..p]) > width)
  }

  lemma {:induction false} WidthGrows(w: CellWidth, s: seq<Mark>, a: nat, b: nat, c: nat)
    requires a <= b <= c <= |s|
    ensures Width(w, s[a..b]) <= Width(w, s[a..c])
    decreases c - b
  {
    if b < c {
      WidthGrows(w, s, a, b, c - 1);
      assert s[a..c][..c - a - 1] == s[a..c - 1];
    }
  }

  lemma BreakingMayBreak(w: CellWidth, width: nat, s: seq<Mark>, cut: (nat, nat), p: nat, next: nat)
    requires Breaking(w, width, s, cut, p) && p <= next <= |s|
    ensures MayBreak(w, width, s, cut, next) && Breaking(w, width, s, cut, next)
  {
    WidthGrows(w, s, cut.0, p, next);
    WidthGrows(w, s, cut.0, next, WordStop(s, next));
    if HasBreak(s[cut.1..p]) {
      var i :| 0 <= i < |s[cut.1..p]| && s[cut.1..p][i].0 == '\n';
      assert s[cut.1..next][i].0 == '\n';
    }
  }

  lemma {:induction false} WidthConcat(w: CellWidth, a: seq<Mark>, b: seq<Mark>)
    ensures Width(w, a + b) == Width(w, a) + Width(w, b)
    decreases |b|
  {
    if b == [] {
      assert a + b == a;
    } else {
      assert (a + b)[..|a + b| - 1] == a + b[..|b| - 1];
      WidthConcat(w, a, b[..|b| - 1]);
    }
  }

  lemma {:induction false} StreamCells(w: CellWidth, text: string, style: Style)
    ensures Width(w, TextStream(text, style)) == Cells(w, text)
    decreases |text|
  {
    if text != [] {
      var front, last := text[..|text| - 1], text[|text| - 1];
      assert TextStream(text, style)[..|text| - 1] == TextStream(front, style);
      StreamCells(w, front, style);
      CellsPush(w, front, last);
      assert text == front + [last];
    }
  }

  /** The text after p starts with this token. */
  ghost predicate Ahead(s: seq<Mark>, p: nat, text: string, style: Style) {
    p + |text| <= |s| && s[p..p + |text|] == TextStream(text, style)
  }

  lemma AheadSplits(s: seq<Mark>, p: nat, text: string, n: nat, style: Style)
    requires Ahead(s, p, text, style) && n <= |text|
    ensures Ahead(s, p, text[..n], style) && Ahead(s, p + n, text[n..], style)
  {
    assert s[p..p + n] == s[p..p + |text|][..n];
    assert s[p + n..p + |text|] == s[p..p + |text|][n..];
  }

  lemma AheadShows(s: seq<Mark>, p: nat, text: string, style: Style)
    requires Ahead(s, p, text, style) && forall i :: 0 <= i < |text| ==> Shows(text[i], style)
    ensures forall i :: p <= i < p + |text| ==> !Hidden(s[i])
    ensures WordStop(s, p) >= p + |text|
    ensures forall q :: p <= q <= p + |text| ==> WordStop(s, q) >= p + |text|
  {
    forall i | p <= i < p + |text| ensures !Hidden(s[i]) { assert s[p..p + |text|][i - p] == s[i]; }
    forall q | p <= q <= p + |text| ensures WordStop(s, q) >= p + |text| { StopsAfter(s, q, p + |text|); }
  }

  lemma {:induction false} StopsAfter(s: seq<Mark>, at: nat, end: nat)
    requires at <= end <= |s| && forall i :: at <= i < end ==> !Hidden(s[i])
    ensures WordStop(s, at) >= end
    decreases end - at
  {
    if at < end { StopsAfter(s, at + 1, end); }
  }

  // ---- Steps ------------------------------------------------------------------------------

  /** Trailing plain spaces are trimmed: the line is a shorter stretch, and what is cut off does not show. */
  lemma {:induction false} SpacesTrimmed(text: string, style: Style)
    ensures |TrimSpaces(text)| <= |text| && TrimSpaces(text) == text[..|TrimSpaces(text)|]
    ensures forall i :: |TrimSpaces(text)| <= i < |text| ==> text[i] == ' '
    decreases |text|
  {
    if text != [] && text[|text| - 1] == ' ' { SpacesTrimmed(text[..|text| - 1], style); }
  }

  lemma {:induction false} TrimIsPrefix(line: Line)
    ensures var t := Stream(TrimPlainEnd(line));
      && |t| <= |Stream(line)| && t == Stream(line)[..|t|]
      && forall i :: |t| <= i < |Stream(line)| ==> Stream(line)[i].0 == ' ' && Hidden(Stream(line)[i])
  {
    if line != [] {
      var front, last := line[..|line| - 1], line[|line| - 1];
      if last.style.bg.None? {
        SpacesTrimmed(last.text, last.style);
        TrimIsPrefix(front);
        StreamSnoc(front, StyledSpan(TrimSpaces(last.text), last.style));
        assert Stream(line) == Stream(front) + TextStream(last.text, last.style);
      }
    }
  }

  lemma StretchTrimmed(s: seq<Mark>, line: Line, c: nat, p: nat) returns (t: nat)
    requires IsStretch(s, line, (c, p))
    ensures c <= t <= p && IsStretch(s, TrimPlainEnd(line), (c, t))
    ensures forall i :: t <= i < p ==> Hidden(s[i]) && s[i].0 != '\n'
  {
    TrimIsPrefix(line);
    t := c + |Stream(TrimPlainEnd(line))|;
    assert s[c..p][..t - c] == s[c..t];
    forall i | t <= i < p ensures Hidden(s[i]) && s[i].0 != '\n' { assert s[c..p][i - c] == s[i]; }
    forall i | 0 <= i < t - c ensures s[c..t][i].0 != '\n' { assert s[c..t][i] == s[c..p][i]; }
  }

  lemma CutsPush(w: CellWidth, width: nat, s: seq<Mark>, lines: seq<Line>, cuts: seq<(nat, nat)>, line: Line,
                 cut: (nat, nat))
    requires CutsOk(w, width, s, lines, cuts) && IsStretch(s, line, cut) && Gap(s, End(cuts), cut.0)
    requires cuts != [] ==> MayBreak(w, width, s, cuts[|cuts| - 1], cut.0)
    ensures CutsOk(w, width, s, lines + [line], cuts + [cut]) && End(cuts + [cut]) == cut.1
  {
    hide IsStretch, Gap, MayBreak;
    var all := cuts + [cut];
    forall k | 0 <= k < |all| ensures IsStretch(s, (lines + [line])[k], all[k]) && Gap(s, End(all[..k]), all[k].0) {
      if k < |cuts| { assert all[..k] == cuts[..k]; } else { assert all[..k] == cuts; }
    }
    forall k | 0 < k < |all| ensures MayBreak(w, width, s, all[k - 1], all[k].0) {
      if k < |cuts| { assert all[k - 1] == cuts[k - 1] && all[k] == cuts[k]; }
    }
  }

  lemma NoGap(s: seq<Mark>, a: nat, b: nat)
    requires a <= b <= |s| && forall i :: a <= i < b ==> Hidden(s[i]) && s[i].0 != '\n'
    ensures Gap(s, a, b)
  {
  }

  /** Finishing the line being filled. */
  lemma Flushed(w: CellWidth, width: nat, s: seq<Mark>, p: nat, f: Flow, cuts: seq<(nat, nat)>, c: nat) returns (t: nat)
    requires Cut(w, width, s, p, f, cuts, c)
    ensures c <= t <= p && CutsOk(w, width, s, FlushLine(f).lines, cuts + [(c, t)]) && End(cuts + [(c, t)]) == t
    ensures Gap(s, t, p) && !HasBreak(s[t..p])
  {
    t := StretchTrimmed(s, f.current, c, p);
    NoGap(s, t, p);
    if cuts != [] && !f.started { BreakingMayBreak(w, width, s, cuts[|cuts| - 1], p, c); }
    CutsPush(w, width, s, f.lines, cuts, TrimPlainEnd(f.current), (c, t));
  }

  lemma NothingYet(w: CellWidth, s: seq<Mark>, p: nat)
    requires p <= |s|
    ensures IsStretch(s, [], (p, p)) && Width(w, s[p..p]) == 0
  {
    assert s[p..p] == [];
  }

  lemma GapGrows(s: seq<Mark>, a: nat, p: nat, q: nat)
    requires Gap(s, a, p) && p <= q <= |s|
    requires forall i :: p <= i < q ==> Hidden(s[i]) && (s[i].0 == '\n' ==> !HasBreak(s[a..p]) && q == p + 1)
    ensures Gap(s, a, q)
  {
    forall i, j | 0 <= i < j < q - a ensures !(s[a..q][i].0 == '\n' && s[a..q][j].0 == '\n') {
      if j < p - a {
        assert s[a..p][i] == s[a..q][i] && s[a..p][j] == s[a..q][j];
      } else if s[a + j].0 == '\n' {
        assert i < p - a ==> s[a..p][i] == s[a..q][i];
      }
    }
  }

  /** A line that nothing is on yet. */
  lemma Empty(w: CellWidth, width: nat, s: seq<Mark>, q: nat, lines: seq<Line>, cuts: seq<(nat, nat)>)
    requires q <= |s| && CutsOk(w, width, s, lines, cuts) && Gap(s, End(cuts), q)
    requires cuts != [] ==> cuts[|cuts| - 1].0 < q && Breaking(w, width, s, cuts[|cuts| - 1], q)
    ensures Cut(w, width, s, q, Flow(lines, [], 0, false), cuts, q)
  {
    NothingYet(w, s, q);
    hide CutsOk, Gap, IsStretch, MayBreak, Breaking;
  }

  lemma NewlineGap(w: CellWidth, width: nat, s: seq<Mark>, c: nat, t: nat, p: nat, style: Style)
    requires c <= t && Gap(s, t, p) && !HasBreak(s[t..p]) && Ahead(s, p, "\n", style)
    ensures Gap(s, t, p + 1) && Breaking(w, width, s, (c, t), p + 1)
  {
    assert s[p..p + 1][0] == s[p];
    GapGrows(s, t, p, p + 1);
    assert s[t..p + 1][p - t].0 == '\n';
  }

  lemma BreakStep(w: CellWidth, width: nat, s: seq<Mark>, p: nat, f: Flow, cuts: seq<(nat, nat)>, c: nat, style: Style)
    returns (after: seq<(nat, nat)>)
    requires Cut(w, width, s, p, f, cuts, c) && Ahead(s, p, "\n", style)
    ensures Cut(w, width, s, p + 1, FlushLine(f).(started := false), after, p + 1)
  {
    hide Cut, CutsOk, Gap, IsStretch, Breaking;
    var t := Flushed(w, width, s, p, f, cuts, c);
    after := cuts + [(c, t)];
    NewlineGap(w, width, s, c, t, p, style);
    Empty(w, width, s, p + 1, FlushLine(f).lines, after);
  }

  lemma PlainIsHidden(s: seq<Mark>, p: nat, text: string, style: Style)
    requires Ahead(s, p, text, style) && style.bg.None? && forall i :: 0 <= i < |text| ==> text[i] == ' '
    ensures forall i :: p <= i < p + |text| ==> Hidden(s[i]) && s[i].0 == ' '
  {
    forall i | p <= i < p + |text| ensures Hidden(s[i]) && s[i].0 == ' ' { assert s[p..p + |text|][i - p] == s[i]; }
  }

  lemma WidthSplit(w: CellWidth, s: seq<Mark>, c: nat, p: nat, q: nat)
    requires c <= p <= q <= |s|
    ensures s[c..q] == s[c..p] + s[p..q] && Width(w, s[c..q]) == Width(w, s[c..p]) + Width(w, s[p..q])
  {
    assert s[c..q] == s[c..p] + s[p..q];
    WidthConcat(w, s[c..p], s[p..q]);
  }

  lemma NoBreakIn(text: string, style: Style)
    requires forall i :: 0 <= i < |text| ==> text[i] != '\n'
    ensures !HasBreak(TextStream(text, style))
  {
  }

  lemma NoBreakBoth(a: seq<Mark>, b: seq<Mark>)
    requires !HasBreak(a) && !HasBreak(b)
    ensures !HasBreak(a + b)
  {
    forall i | 0 <= i < |a + b| ensures (a + b)[i].0 != '\n' {
      if i < |a| { assert (a + b)[i] == a[i]; } else { assert (a + b)[i] == b[i - |a|]; }
    }
  }

  lemma StretchIn(s: seq<Mark>, line: Line, c: nat, p: nat)
    requires IsStretch(s, line, (c, p))
    ensures c <= p <= |s|
  {
  }

  lemma Longer(s: seq<Mark>, line: Line, longer: Line, c: nat, p: nat, q: nat)
    requires IsStretch(s, line, (c, p)) && p <= q <= |s| && s[c..q] == s[c..p] + s[p..q]
    requires Stream(longer) == Stream(line) + s[p..q] && !HasBreak(s[p..q])
    ensures IsStretch(s, longer, (c, q))
  {
    hide HasBreak, Stream;
    NoBreakBoth(s[c..p], s[p..q]);
  }

  /** Text put on the line being filled. */
  lemma Extended(w: CellWidth, s: seq<Mark>, line: Line, c: nat, p: nat, text: string, style: Style)
    requires IsStretch(s, line, (c, p)) && Ahead(s, p, text, style) && forall i :: 0 <= i < |text| ==> text[i] != '\n'
    ensures IsStretch(s, PushStyled(line, StyledSpan(text, style)), (c, p + |text|))
    ensures Width(w, s[c..p + |text|]) == Width(w, s[c..p]) + Cells(w, text)
  {
    hide HasBreak, Width, Stream, PushStyled, TextStream, IsStretch, Cells;
    StretchIn(s, line, c, p);
    StreamPush(line, StyledSpan(text, style));
    WidthSplit(w, s, c, p, p + |text|);
    StreamCells(w, text, style);
    NoBreakIn(text, style);
    Longer(s, line, PushStyled(line, StyledSpan(text, style)), c, p, p + |text|);
  }

  lemma SpacesSkipped(s: seq<Mark>, a: nat, p: nat, text: string, style: Style)
    requires Gap(s, a, p) && Ahead(s, p, text, style) && style.bg.None?
    requires forall i :: 0 <= i < |text| ==> text[i] == ' '
    ensures Gap(s, a, p + |text|)
  {
    PlainIsHidden(s, p, text, style);
    GapGrows(s, a, p, p + |text|);
  }

  lemma SpaceStep(w: CellWidth, width: nat, s: seq<Mark>, p: nat, f: Flow, cuts: seq<(nat, nat)>, c: nat, token: Token)
    returns (after: seq<(nat, nat)>, from: nat)
    requires Cut(w, width, s, p, f, cuts, c) && Ahead(s, p, token.span.text, token.span.style)
    requires token.kind == Space && token.width == Cells(w, token.span.text) && token.span.style.bg.None?
    requires token.span.text != []
    requires forall i :: 0 <= i < |token.span.text| ==> token.span.text[i] == ' '
    ensures Cut(w, width, s, p + |token.span.text|, PlaceToken(w, width, f, token), after, from)
  {
    hide CutsOk, Gap, IsStretch, Breaking, MayBreak, PushStyled, TrimPlainEnd;
    var text, q := token.span.text, p + |token.span.text|;
    after, from := cuts, c;
    if !f.started {
      from := q;
      SpacesSkipped(s, End(cuts), p, text, token.span.style);
      if cuts != [] { BreakingMayBreak(w, width, s, cuts[|cuts| - 1], p, q); }
      Empty(w, width, s, q, f.lines, cuts);
    } else {
      Extended(w, s, f.current, c, p, text, token.span.style);
      if f.used + token.width > width {
        var t := Flushed(w, width, s, p, f, cuts, c);
        after, from := cuts + [(c, t)], q;
        SpacesSkipped(s, t, p, text, token.span.style);
        WideBreaks(w, width, s, c, t, q);
        Empty(w, width, s, q, FlushLine(f).lines, after);
      }
    }
  }

  lemma WideBreaks(w: CellWidth, width: nat, s: seq<Mark>, c: nat, t: nat, q: nat)
    requires c <= t <= q <= |s| && Width(w, s[c..q]) > width
    ensures Breaking(w, width, s, (c, t), q)
  {
  }

  /** A line that is being filled from c after the last one ended. */
  lemma Starts(w: CellWidth, width: nat, s: seq<Mark>, p: nat, f: Flow, cuts: seq<(nat, nat)>, c: nat)
    requires Cut(w, width, s, p, f, cuts, c)
    ensures cuts != [] ==> MayBreak(w, width, s, cuts[|cuts| - 1], c)
  {
    if cuts != [] && !f.started { BreakingMayBreak(w, width, s, cuts[|cuts| - 1], p, c); }
  }

  lemma WordStep(w: CellWidth, width: nat, s: seq<Mark>, p: nat, f: Flow, cuts: seq<(nat, nat)>, c: nat, token: Token)
    requires Cut(w, width, s, p, f, cuts, c) && Ahead(s, p, token.span.text, token.span.style)
    requires token.kind == Word && token.width == Cells(w, token.span.text) && f.used + token.width <= width
    requires token.span.text != []
    requires forall i :: 0 <= i < |token.span.text| ==> Shows(token.span.text[i], token.span.style)
    ensures Cut(w, width, s, p + |token.span.text|, PlaceToken(w, width, f, token), cuts, c)
  {
    hide CutsOk, Gap, IsStretch, MayBreak, Breaking, PushStyled, Ahead, Width, Cells, End, Shows;
    Starts(w, width, s, p, f, cuts, c);
    ShownIsNoBreak(token.span.text, token.span.style);
    AheadIn(s, p, token.span.text, token.span.style);
    Extended(w, s, f.current, c, p, token.span.text, token.span.style);
  }

  /** One piece of a wide word as a line of its own. */
  lemma Piece(w: CellWidth, width: nat, s: seq<Mark>, q: nat, lines: seq<Line>, cuts: seq<(nat, nat)>,
              text: string, n: nat, style: Style) returns (t: nat)
    requires CutsOk(w, width, s, lines, cuts) && Gap(s, End(cuts), q) && Ahead(s, q, text, style)
    requires cuts != [] ==> MayBreak(w, width, s, cuts[|cuts| - 1], q)
    requires (forall i :: 0 <= i < |text| ==> Shows(text[i], style)) && n <= |text| && Cells(w, text) > width
    ensures q <= t <= q + n && Ahead(s, q + n, text[n..], style) && Gap(s, t, q + n)
    ensures MayBreak(w, width, s, (q, t), q + n)
    ensures CutsOk(w, width, s, lines + [TrimPlainEnd(PushStyled([], StyledSpan(text[..n], style)))], cuts + [(q, t)])
  {
    hide CutsOk, Gap, IsStretch, MayBreak, TrimPlainEnd, PushStyled, Ahead;
    AheadSplits(s, q, text, n, style);
    AheadIn(s, q, text, style);
    NothingYet(w, s, q);
    Extended(w, s, [], q, q, text[..n], style);
    var line := PushStyled([], StyledSpan(text[..n], style));
    t := StretchTrimmed(s, line, q, q + n);
    NoGap(s, t, q + n);
    CutsPush(w, width, s, lines, cuts, TrimPlainEnd(line), (q, t));
    PieceMayBreak(w, width, s, q, t, n, text, style);
  }

  lemma WideMayBreak(w: CellWidth, width: nat, s: seq<Mark>, c: nat, t: nat, p: nat)
    requires c <= t <= p <= |s| && Width(w, s[c..WordStop(s, p)]) > width
    ensures MayBreak(w, width, s, (c, t), p)
  {
  }

  lemma AheadIn(s: seq<Mark>, q: nat, text: string, style: Style)
    requires Ahead(s, q, text, style)
    ensures q + |text| <= |s| && s[q..q + |text|] == TextStream(text, style)
  {
  }

  lemma WholeFits(w: CellWidth, text: string, width: nat)
    ensures FittingPrefix(w, text, width) == |text| ==> Cells(w, text) <= width
  {
    PrefixFits(w, text, width);
    if FittingPrefix(w, text, width) == |text| { assert text[..|text|] == text; }
  }

  /** A wide word, broken over lines from q on; nothing else is on the line it starts on. */
  lemma {:induction false} SplitStep(w: CellWidth, width: nat, s: seq<Mark>, q: nat, lines: seq<Line>,
                                     cuts: seq<(nat, nat)>, text: string, style: Style)
    returns (after: seq<(nat, nat)>, from: nat)
    requires CutsOk(w, width, s, lines, cuts) && Gap(s, End(cuts), q) && Ahead(s, q, text, style)
    requires cuts != [] ==> cuts[|cuts| - 1].0 <= q && MayBreak(w, width, s, cuts[|cuts| - 1], q)
    requires forall i :: 0 <= i < |text| ==> Shows(text[i], style)
    ensures var (f, rest) := SplitWord(w, width, lines, [], text, style);
      && f.current == [] && |rest| <= |text| && from == q + |text| - |rest| && Ahead(s, from, rest, style)
      && CutsOk(w, width, s, f.lines, after) && Gap(s, End(after), from)
      && (after != [] ==> after[|after| - 1].0 <= from && MayBreak(w, width, s, after[|after| - 1], from))
      && (forall i :: 0 <= i < |rest| ==> Shows(rest[i], style))
      && (text != [] ==> rest != [])
    decreases |text|
  {
    hide CutsOk, Gap, IsStretch, MayBreak, TrimPlainEnd, PushStyled, FittingPrefix, Ahead, Shows;
    after, from := cuts, q;
    var n := FittingPrefix(w, text, width);
    WholeFits(w, text, width);
    if Cells(w, text) > width && n > 0 {
      var t := Piece(w, width, s, q, lines, cuts, text, n, style);
      var line := PushStyled([], StyledSpan(text[..n], style));
      after, from := SplitStep(w, width, s, q + n, lines + [TrimPlainEnd(line)], cuts + [(q, t)], text[n..], style);
    }
  }

  lemma PieceMayBreak(w: CellWidth, width: nat, s: seq<Mark>, q: nat, t: nat, n: nat, text: string, style: Style)
    requires Ahead(s, q, text, style) && n <= |text| && q <= t <= q + n && Cells(w, text) > width
    requires forall i :: 0 <= i < |text| ==> Shows(text[i], style)
    ensures MayBreak(w, width, s, (q, t), q + n)
  {
    hide *;
    AheadIn(s, q, text, style);
    AheadShows(s, q, text, style);
    StreamCells(w, text, style);
    WidthGrows(w, s, q, q + |text|, WordStop(s, q + n));
    WideMayBreak(w, width, s, q, t, q + n);
  }

  /** The line a wide word goes to is empty when it starts. */
  lemma Begun(w: CellWidth, width: nat, s: seq<Mark>, p: nat, f: Flow, cuts: seq<(nat, nat)>, c: nat, token: Token)
    returns (before: seq<(nat, nat)>)
    requires Cut(w, width, s, p, f, cuts, c) && Ahead(s, p, token.span.text, token.span.style)
    requires token.width == Cells(w, token.span.text) && f.used + token.width > width
    requires forall i :: 0 <= i < |token.span.text| ==> Shows(token.span.text[i], token.span.style)
    ensures var begun := if f.started then FlushLine(f) else f;
      begun.current == [] && CutsOk(w, width, s, begun.lines, before) && Gap(s, End(before), p)
      && (before != [] ==> before[|before| - 1].0 <= p && MayBreak(w, width, s, before[|before| - 1], p))
  {
    hide CutsOk, Gap, IsStretch, MayBreak, Breaking, TrimPlainEnd, Ahead, Width, Cells, End, Shows;
    if f.started {
      var t := Flushed(w, width, s, p, f, cuts, c);
      before := cuts + [(c, t)];
      LineMayBreak(w, width, s, c, t, p, token.span.text, token.span.style);
    } else {
      Starts(w, width, s, p, f, cuts, c);
      before := cuts;
    }
  }

  lemma WideStep(w: CellWidth, width: nat, s: seq<Mark>, p: nat, f: Flow, cuts: seq<(nat, nat)>, c: nat, token: Token)
    returns (after: seq<(nat, nat)>, from: nat)
    requires Cut(w, width, s, p, f, cuts, c) && Ahead(s, p, token.span.text, token.span.style)
    requires token.kind == Word && token.width == Cells(w, token.span.text) && f.used + token.width > width
    requires token.span.text != []
    requires forall i :: 0 <= i < |token.span.text| ==> Shows(token.span.text[i], token.span.style)
    ensures Cut(w, width, s, p + |token.span.text|, PlaceToken(w, width, f, token), after, from)
  {
    hide CutsOk, Gap, IsStretch, MayBreak, Breaking, PushStyled, TrimPlainEnd, SplitWord, Ahead, Width, Cells, End,
      Shows;
    var text, style := token.span.text, token.span.style;
    var begun := if f.started then FlushLine(f) else f;
    var before := Begun(w, width, s, p, f, cuts, c, token);
    var (split, rest) := SplitWord(w, width, begun.lines, [], text, style);
    after, from := SplitStep(w, width, s, p, begun.lines, before, text, style);
    AheadIn(s, from, rest, style);
    NothingYet(w, s, from);
    ShownIsNoBreak(rest, style);
    Extended(w, s, [], from, from, rest, style);
  }

  lemma ShownIsNoBreak(text: string, style: Style)
    requires forall i :: 0 <= i < |text| ==> Shows(text[i], style)
    ensures forall i :: 0 <= i < |text| ==> text[i] != '\n'
  {
  }

  lemma LineMayBreak(w: CellWidth, width: nat, s: seq<Mark>, c: nat, t: nat, p: nat, text: string, style: Style)
    requires c <= t <= p && Ahead(s, p, text, style) && Width(w, s[c..p]) + Cells(w, text) > width
    requires forall i :: 0 <= i < |text| ==> Shows(text[i], style)
    ensures MayBreak(w, width, s, (c, t), p)
  {
    hide *;
    AheadIn(s, p, text, style);
    AheadShows(s, p, text, style);
    StreamCells(w, text, style);
    WidthSplit(w, s, c, p, p + |text|);
    WidthGrows(w, s, c, p + |text|, WordStop(s, p));
    WideMayBreak(w, width, s, c, t, p);
  }

  lemma PlaceStep(w: CellWidth, width: nat, s: seq<Mark>, p: nat, f: Flow, cuts: seq<(nat, nat)>, c: nat, token: Token)
    returns (after: seq<(nat, nat)>, from: nat)
    requires Cut(w, width, s, p, f, cuts, c) && Ahead(s, p, token.span.text, token.span.style) && TokenOk(w, token)
    ensures Cut(w, width, s, p + |token.span.text|, PlaceToken(w, width, f, token), after, from)
  {
    hide Cut, PlaceWide, PushStyled, FlushLine, Ahead, Shows, TextMarks;
    match token.kind {
      case Break =>
        from := p + 1;
        after := BreakStep(w, width, s, p, f, cuts, c, token.span.style);
      case Space => after, from := SpaceStep(w, width, s, p, f, cuts, c, token);
      case Word =>
        if f.used + token.width <= width {
          after, from := cuts, c;
          WordStep(w, width, s, p, f, cuts, c, token);
        } else {
          after, from := WideStep(w, width, s, p, f, cuts, c, token);
        }
    }
  }

  lemma AheadOf(front: seq<Mark>, text: string, style: Style, rest: seq<Mark>)
    ensures Ahead(front + TextStream(text, style) + rest, |front|, text, style)
  {
  }

  lemma NothingPlaced(w: CellWidth, width: nat, s: seq<Mark>)
    ensures Cut(w, width, s, 0, Flow([], [], 0, false), [], 0)
  {
    NothingYet(w, s, 0);
  }

  lemma {:induction false} Placed(w: CellWidth, width: nat, tokens: seq<Token>, rest: seq<Mark>)
    returns (cuts: seq<(nat, nat)>, c: nat)
    requires forall i :: 0 <= i < |tokens| ==> TokenOk(w, tokens[i])
    ensures Cut(w, width, TokenStream(tokens) + rest, |TokenStream(tokens)|, PlaceTokens(w, width, tokens), cuts, c)
    decreases |tokens|
  {
    hide Cut, Ahead, TokenOk, PlaceToken, TextStream;
    if tokens == [] {
      cuts, c := [], 0;
      NothingPlaced(w, width, TokenStream(tokens) + rest);
    } else {
      var front, last := tokens[..|tokens| - 1], tokens[|tokens| - 1];
      var marks := TextStream(last.span.text, last.span.style);
      cuts, c := Placed(w, width, front, marks + rest);
      assert TokenStream(front) + (marks + rest) == TokenStream(front) + marks + rest;
      assert TokenStream(tokens) == TokenStream(front) + marks;
      hide TokenStream;
      AheadOf(TokenStream(front), last.span.text, last.span.style, rest);
      cuts, c := PlaceStep(w, width, TokenStream(tokens) + rest, |TokenStream(front)|,
        PlaceTokens(w, width, front), cuts, c, last);
    }
  }

  lemma Finished(w: CellWidth, width: nat, s: seq<Mark>, f: Flow, cuts: seq<(nat, nat)>, c: nat)
    returns (all: seq<(nat, nat)>)
    requires Cut(w, width, s, |s|, f, cuts, c)
    ensures CutsOk(w, width, s, FinishFlow(f), all) && Gap(s, End(all), |s|)
    ensures |all| > 1 ==> all[|all| - 1].0 < |s|
  {
    hide CutsOk, Gap, MayBreak, Breaking, TrimPlainEnd;
    if f.current != [] || f.lines == [] {
      var t := Flushed(w, width, s, |s|, f, cuts, c);
      all := cuts + [(c, t)];
    } else {
      all := cuts;
      assert Stream([]) == [];
      assert |s[c..]| == |s| - c;
    }
  }

  /** These stretches of the text are the lines: what lies before, between and after them does not show, with one
      newline at most in each place; a line ends only at a newline or when the next word makes it too wide; and no
      line but the first starts at the end of the text. */
  ghost predicate AreStretches(w: CellWidth, width: nat, s: seq<Mark>, lines: seq<Line>, cuts: seq<(nat, nat)>) {
    && CutsOk(w, width, s, lines, cuts) && Gap(s, End(cuts), |s|) && cuts != []
    && (|cuts| > 1 ==> cuts[|cuts| - 1].0 < |s|)
  }

  lemma WrapIsStretches(w: CellWidth, spans: seq<StyledSpan>, width: nat)
    ensures exists cuts :: AreStretches(w, width, Stream(spans), Wrapped(w, spans, width), cuts)
  {
    hide Cut, CutsOk, Gap, PlaceTokens, Tokens, TokenStream, FinishFlow;
    var tokens := Tokens(w, spans);
    TokensSpell(w, spans);
    TokensAreTheText(w, spans);
    var cuts, c := Placed(w, width, tokens, []);
    assert TokenStream(tokens) + [] == Stream(spans);
    var all := Finished(w, width, Stream(spans), PlaceTokens(w, width, tokens), cuts, c);
    SomeLine(w, width, spans, all);
    assert AreStretches(w, width, Stream(spans), Wrapped(w, spans, width), all);
  }

  lemma SomeLine(w: CellWidth, width: nat, spans: seq<StyledSpan>, cuts: seq<(nat, nat)>)
    requires CutsOk(w, width, Stream(spans), Wrapped(w, spans, width), cuts)
    ensures cuts != []
  {
  }
}
