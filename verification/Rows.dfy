/** Turning a file's hunks into split or stacked review rows. */
module Rows {
  import opened Text
  import opened Sanitize
  import opened DiffModel
  import opened Emphasis

  datatype RowKind =
    | CompactedKind | HeaderKind | LineKindRow | CollapsedKind | ExpandedKind | PlaceholderKind | NoteKind

  datatype RowKey = RowKey(fileId: string, hunkIndex: Option<nat>, kind: RowKind,
                           oldLine: Option<nat>, newLine: Option<nat>, noteId: Option<string>)

  datatype CellKind = ContextCell | AdditionCell | DeletionCell | EmptyCell

  datatype ReviewCell = ReviewCell(kind: CellKind, oldLine: Option<nat>, newLine: Option<nat>, spans: seq<Span>)

  datatype Layout = SplitLayout | StackLayout

  function DiffKey(fileId: string, hunk: nat, kind: RowKind, oldLine: Option<nat>, newLine: Option<nat>): RowKey {
    RowKey(fileId, Some(hunk), kind, oldLine, newLine, None)
  }

  function KindOf(kind: LineKind): CellKind {
    match kind
    case Context => ContextCell
    case Addition => AdditionCell
    case Deletion => DeletionCell
  }

  function CellFrom(line: DiffLine, spans: seq<Span>): ReviewCell {
    ReviewCell(KindOf(line.kind), line.oldLine, line.newLine, spans)
  }

  const BLANK_CELL := ReviewCell(EmptyCell, None, None, [])

  function PlainText(text: string): seq<Span> { if text == [] then [] else [Span(text, false)] }

  function EmphasizedText(text: string): seq<Span> { if text == [] then [] else [Span(text, true)] }

  /** A row that shows diff text. */
  datatype LineRow = Split(key: RowKey, left: ReviewCell, right: ReviewCell) | Stack(key: RowKey, cell: ReviewCell)

  // ---- Changed blocks ---------------------------------------------------------------------

  function BlockEnd(lines: seq<DiffLine>, at: nat): (end: nat)
    requires at <= |lines|
    ensures at <= end <= |lines|
    ensures forall i :: at <= i < end ==> lines[i].kind != Context
    ensures end < |lines| ==> lines[end].kind == Context
    decreases |lines| - at
  {
    if at == |lines| || lines[at].kind == Context then at else BlockEnd(lines, at + 1)
  }

  function PairSpans(diff: Differ, dels: seq<DiffLine>, adds: seq<DiffLine>, i: nat): (seq<Span>, seq<Span>) {
    if i < |dels| && i < |adds| then
      EmphasizedPair(diff, SanitizeLine(dels[i].content), SanitizeLine(adds[i].content))
    else if i < |dels| then (EmphasizedText(SanitizeLine(dels[i].content)), [])
    else if i < |adds| then ([], EmphasizedText(SanitizeLine(adds[i].content)))
    else ([], [])
  }

  function PairRow(diff: Differ, fileId: string, hunk: nat, dels: seq<DiffLine>, adds: seq<DiffLine>, i: nat): LineRow {
    var (oldSpans, newSpans) := PairSpans(diff, dels, adds, i);
    var left := if i < |dels| then CellFrom(dels[i], oldSpans) else BLANK_CELL;
    var right := if i < |adds| then CellFrom(adds[i], newSpans) else BLANK_CELL;
    Split(DiffKey(fileId, hunk, LineKindRow, left.oldLine, right.newLine), left, right)
  }

  /** The first n rows of a block: deletions and additions side by side. */
  function PairRows(diff: Differ, fileId: string, hunk: nat, dels: seq<DiffLine>, adds: seq<DiffLine>,
                    n: nat): seq<LineRow> {
    if n == 0 then []
    else PairRows(diff, fileId, hunk, dels, adds, n - 1) + [PairRow(diff, fileId, hunk, dels, adds, n - 1)]
  }

  /** In a block without context lines the deletions are the old-side lines, the additions the new-side ones. */
  function BlockRows(diff: Differ, fileId: string, hunk: nat, block: seq<DiffLine>): seq<LineRow> {
    var dels, adds := SideLines(block, Old), SideLines(block, New);
    PairRows(diff, fileId, hunk, dels, adds, Max(|dels|, |adds|))
  }

  function ContextRow(fileId: string, hunk: nat, line: DiffLine): LineRow {
    var cell := CellFrom(line, PlainText(SanitizeLine(line.content)));
    Split(DiffKey(fileId, hunk, LineKindRow, cell.oldLine, cell.newLine), cell, cell)
  }

  function SplitRows(diff: Differ, fileId: string, hunk: nat, lines: seq<DiffLine>, at: nat): seq<LineRow>
    requires at <= |lines|
    decreases |lines| - at
  {
    if at == |lines| then []
    else if lines[at].kind == Context then
      [ContextRow(fileId, hunk, lines[at])] + SplitRows(diff, fileId, hunk, lines, at + 1)
    else
      var end := BlockEnd(lines, at + 1);
      BlockRows(diff, fileId, hunk, lines[at..end]) + SplitRows(diff, fileId, hunk, lines, end)
  }

  function StackRow(fileId: string, hunk: nat, line: DiffLine, spans: seq<Span>): LineRow {
    Stack(DiffKey(fileId, hunk, LineKindRow, line.oldLine, line.newLine), CellFrom(line, spans))
  }

  function BlockSpans(diff: Differ, block: seq<DiffLine>, i: nat): seq<Span>
    requires i < |block|
  {
    var dels, adds := SideLines(block, Old), SideLines(block, New);
    if block[i].kind == Deletion then PairSpans(diff, dels, adds, |SideLines(block[..i], Old)|).0
    else PairSpans(diff, dels, adds, |SideLines(block[..i], New)|).1
  }

  /** The first n rows of a block, in line order. */
  function BlockStackRows(diff: Differ, fileId: string, hunk: nat, block: seq<DiffLine>, n: nat): seq<LineRow>
    requires n <= |block|
  {
    if n == 0 then [] else
      BlockStackRows(diff, fileId, hunk, block, n - 1)
      + [StackRow(fileId, hunk, block[n - 1], BlockSpans(diff, block, n - 1))]
  }

  function StackRows(diff: Differ, fileId: string, hunk: nat, lines: seq<DiffLine>, at: nat): seq<LineRow>
    requires at <= |lines|
    decreases |lines| - at
  {
    if at == |lines| then []
    else if lines[at].kind == Context then
      [StackRow(fileId, hunk, lines[at], PlainText(SanitizeLine(lines[at].content)))]
      + StackRows(diff, fileId, hunk, lines, at + 1)
    else
      var end := BlockEnd(lines, at + 1);
      BlockStackRows(diff, fileId, hunk, lines[at..end], end - at) + StackRows(diff, fileId, hunk, lines, end)
  }

  // ---- The loops --------------------------------------------------------------------------

  method SpansFor(diff: Differ, dels: seq<DiffLine>, adds: seq<DiffLine>, i: nat)
    returns (oldSpans: seq<Span>, newSpans: seq<Span>)
    requires i < |dels| || i < |adds|
    ensures (oldSpans, newSpans) == PairSpans(diff, dels, adds, i)
  {
    if i < |dels| && i < |adds| {
      oldSpans, newSpans := EmphasizePair(diff, SanitizeLine(dels[i].content), SanitizeLine(adds[i].content));
    } else if i < |dels| {
      oldSpans, newSpans := EmphasizedText(SanitizeLine(dels[i].content)), [];
    } else {
      oldSpans, newSpans := [], EmphasizedText(SanitizeLine(adds[i].content));
    }
  }

  lemma SplitRowsFrom(diff: Differ, fileId: string, hunk: nat, lines: seq<DiffLine>, at: nat)
    requires at < |lines|
    ensures SplitRows(diff, fileId, hunk, lines, at) ==
      if lines[at].kind == Context then
        [ContextRow(fileId, hunk, lines[at])] + SplitRows(diff, fileId, hunk, lines, at + 1)
      else
        var end := BlockEnd(lines, at + 1);
        BlockRows(diff, fileId, hunk, lines[at..end]) + SplitRows(diff, fileId, hunk, lines, end)
  {
    hide ContextRow, BlockRows;
  }

  lemma NoSplitRows(diff: Differ, fileId: string, hunk: nat, lines: seq<DiffLine>)
    ensures SplitRows(diff, fileId, hunk, lines, |lines|) == []
  {
  }

  method BuildSplitRows(diff: Differ, fileId: string, hunk: nat, lines: seq<DiffLine>) returns (rows: seq<LineRow>)
    ensures rows == SplitRows(diff, fileId, hunk, lines, 0)
  {
    hide BlockRows, SanitizeLine, SplitRows;
    rows := [];
    var index := 0;
    NoSplitRows(diff, fileId, hunk, lines);
    while index < |lines|
      invariant 0 <= index <= |lines|
      invariant rows + SplitRows(diff, fileId, hunk, lines, index) == SplitRows(diff, fileId, hunk, lines, 0)
    {
      SplitRowsFrom(diff, fileId, hunk, lines, index);
      if lines[index].kind == Context {
        var cell := CellFrom(lines[index], PlainText(SanitizeLine(lines[index].content)));
        var row := Split(DiffKey(fileId, hunk, LineKindRow, cell.oldLine, cell.newLine), cell, cell);
        Assoc(rows, [row], SplitRows(diff, fileId, hunk, lines, index + 1));
        rows := rows + [row];
        index := index + 1;
      } else {
        var end := BlockEnd(lines, index + 1);
        Assoc(rows, BlockRows(diff, fileId, hunk, lines[index..end]),
                   SplitRows(diff, fileId, hunk, lines, end));
        rows := AppendBlockRows(diff, fileId, hunk, lines[index..end], rows);
        index := end;
      }
    }
  }

  method AppendBlockRows(diff: Differ, fileId: string, hunk: nat, block: seq<DiffLine>, before: seq<LineRow>)
    returns (rows: seq<LineRow>)
    ensures rows == before + BlockRows(diff, fileId, hunk, block)
  {
    rows := before;
    var dels, adds := SideLines(block, Old), SideLines(block, New);
    for i := 0 to Max(|dels|, |adds|)
      invariant rows == before + PairRows(diff, fileId, hunk, dels, adds, i)
    {
      hide PairRow, SideLines, PairRows;
      PairRowsPush(diff, fileId, hunk, dels, adds, i + 1);
      Assoc(before, PairRows(diff, fileId, hunk, dels, adds, i), [PairRow(diff, fileId, hunk, dels, adds, i)]);
      var row := PairUp(diff, fileId, hunk, dels, adds, i);
      rows := rows + [row];
    }
  }

  method PairUp(diff: Differ, fileId: string, hunk: nat, dels: seq<DiffLine>, adds: seq<DiffLine>, i: nat)
    returns (row: LineRow)
    requires i < |dels| || i < |adds|
    ensures row == PairRow(diff, fileId, hunk, dels, adds, i)
  {
    var oldSpans, newSpans := SpansFor(diff, dels, adds, i);
    var left := if i < |dels| then CellFrom(dels[i], oldSpans) else BLANK_CELL;
    var right := if i < |adds| then CellFrom(adds[i], newSpans) else BLANK_CELL;
    row := Split(DiffKey(fileId, hunk, LineKindRow, left.oldLine, right.newLine), left, right);
  }

  lemma StackRowsFrom(diff: Differ, fileId: string, hunk: nat, lines: seq<DiffLine>, at: nat)
    requires at < |lines|
    ensures StackRows(diff, fileId, hunk, lines, at) ==
      if lines[at].kind == Context then
        [StackRow(fileId, hunk, lines[at], PlainText(SanitizeLine(lines[at].content)))]
          + StackRows(diff, fileId, hunk, lines, at + 1)
      else
        var end := BlockEnd(lines, at + 1);
        BlockStackRows(diff, fileId, hunk, lines[at..end], end - at) + StackRows(diff, fileId, hunk, lines, end)
  {
    hide StackRow, PlainText, SanitizeLine, BlockStackRows;
  }

  lemma NoStackRows(diff: Differ, fileId: string, hunk: nat, lines: seq<DiffLine>)
    ensures StackRows(diff, fileId, hunk, lines, |lines|) == []
  {
  }

  method BuildStackRows(diff: Differ, fileId: string, hunk: nat, lines: seq<DiffLine>) returns (rows: seq<LineRow>)
    ensures rows == StackRows(diff, fileId, hunk, lines, 0)
  {
    hide BlockStackRows, SanitizeLine, StackRow, PlainText, StackRows;
    rows := [];
    var index := 0;
    NoStackRows(diff, fileId, hunk, lines);
    while index < |lines|
      invariant 0 <= index <= |lines|
      invariant rows + StackRows(diff, fileId, hunk, lines, index) == StackRows(diff, fileId, hunk, lines, 0)
    {
      StackRowsFrom(diff, fileId, hunk, lines, index);
      if lines[index].kind == Context {
        var row := StackRow(fileId, hunk, lines[index], PlainText(SanitizeLine(lines[index].content)));
        Assoc(rows, [row], StackRows(diff, fileId, hunk, lines, index + 1));
        rows := rows + [row];
        index := index + 1;
      } else {
        var end := BlockEnd(lines, index + 1);
        hide BlockEnd;
        Assoc(rows, BlockStackRows(diff, fileId, hunk, lines[index..end], end - index),
                   StackRows(diff, fileId, hunk, lines, end));
        rows := AppendBlockStackRows(diff, fileId, hunk, lines[index..end], rows);
        index := end;
      }
    }
  }

  lemma SideStep(block: seq<DiffLine>, i: nat, side: Side)
    requires i < |block|
    ensures SideLines(block[..i + 1], side)
         == SideLines(block[..i], side) + (if OnSide(block[i].kind, side) then [block[i]] else [])
  {
    assert block[..i + 1][..i] == block[..i];
  }

  method AppendBlockStackRows(diff: Differ, fileId: string, hunk: nat, block: seq<DiffLine>, before: seq<LineRow>)
    returns (rows: seq<LineRow>)
    requires forall i :: 0 <= i < |block| ==> block[i].kind != Context
    ensures rows == before + BlockStackRows(diff, fileId, hunk, block, |block|)
  {
    rows := before;
    var dels, adds := SideLines(block, Old), SideLines(block, New);
    var deletionIndex, additionIndex := 0, 0;
    for i := 0 to |block|
      invariant deletionIndex == |SideLines(block[..i], Old)| && additionIndex == |SideLines(block[..i], New)|
      invariant rows == before + BlockStackRows(diff, fileId, hunk, block, i)
    {
      SideStep(block, i, Old);
      SideStep(block, i, New);
      CountsBelow(block, i, block[i].kind);
      var spans: seq<Span>, other: seq<Span>;
      if block[i].kind == Deletion {
        spans, other := SpansFor(diff, dels, adds, deletionIndex);
        deletionIndex := deletionIndex + 1;
      } else {
        other, spans := SpansFor(diff, dels, adds, additionIndex);
        additionIndex := additionIndex + 1;
      }
      rows := rows + [StackRow(fileId, hunk, block[i], spans)];
    }
  }

  /** A side line of a block is found in the side's list at the number of side lines before it. */
  lemma {:induction false} CountsBelow(lines: seq<DiffLine>, i: nat, kind: LineKind)
    requires i < |lines|
    ensures forall side | OnSide(lines[i].kind, side) ::
      |SideLines(lines[..i], side)| < |SideLines(lines, side)|
      && SideLines(lines, side)[|SideLines(lines[..i], side)|] == lines[i]
  {
    forall side | OnSide(lines[i].kind, side)
      ensures |SideLines(lines[..i], side)| < |SideLines(lines, side)|
      ensures SideLines(lines, side)[|SideLines(lines[..i], side)|] == lines[i]
    {
      assert lines == lines[..i + 1] + lines[i + 1..];
      SideStep(lines, i, side);
      SideLinesConcat(lines[..i + 1], lines[i + 1..], side);
    }
  }

  // ---- Both layouts show the same diff ----------------------------------------------------

  /** The cells that show one side of the file, in row order. */
  function SideCells(rows: seq<LineRow>, side: Side): seq<ReviewCell> {
    if rows == [] then [] else SideCells(rows[..|rows| - 1], side) + RowCells(rows[|rows| - 1], side)
  }

  function RowCells(row: LineRow, side: Side): seq<ReviewCell> {
    match row
    case Split(_, left, right) =>
      var cell := if side == Old then left else right;
      if cell.kind == EmptyCell then [] else [cell]
    case Stack(_, cell) =>
      if cell.kind == ContextCell || cell.kind == (if side == Old then DeletionCell else AdditionCell) then [cell]
        else []
  }

  lemma SideCellsPush(rows: seq<LineRow>, row: LineRow, side: Side)
    ensures SideCells(rows + [row], side) == SideCells(rows, side) + RowCells(row, side)
  {
    hide RowCells;
    assert (rows + [row])[..|rows|] == rows;
  }

  lemma {:induction false} SideCellsConcat(a: seq<LineRow>, b: seq<LineRow>, side: Side)
    ensures SideCells(a + b, side) == SideCells(a, side) + SideCells(b, side)
  {
    if b == [] {
      assert a + b == a;
    } else {
      hide SideCells, RowCells;
      var front, last := b[..|b| - 1], b[|b| - 1];
      SideCellsConcat(a, front, side);
      SideCellsPush(a + front, last, side);
      SideCellsPush(front, last, side);
      Assoc(a, front, [last]);
      assert front + [last] == b;
      Assoc(SideCells(a, side), SideCells(front, side), RowCells(last, side));
    }
  }

  /** A cell shows a diff line: same kind, same numbers, spans spelling the sanitized content. */
  ghost predicate Shows(cell: ReviewCell, line: DiffLine) {
    && cell.kind == KindOf(line.kind)
    && cell.oldLine == line.oldLine && cell.newLine == line.newLine
    && SpansText(cell.spans) == SanitizeLine(line.content)
  }

  ghost predicate ShowsAll(cells: seq<ReviewCell>, lines: seq<DiffLine>) {
    |cells| == |lines| && forall i :: 0 <= i < |cells| ==> Shows(cells[i], lines[i])
  }

  lemma ShowsConcat(a: seq<ReviewCell>, b: seq<ReviewCell>, c: seq<DiffLine>, d: seq<DiffLine>)
    requires ShowsAll(a, c) && ShowsAll(b, d)
    ensures ShowsAll(a + b, c + d)
  {
  }

  lemma PlainShows(text: string)
    ensures SpansText(PlainText(text)) == text && SpansText(EmphasizedText(text)) == text
  {
    if text != [] {
      assert PlainText(text)[..0] == [] && EmphasizedText(text)[..0] == [];
    }
  }

  lemma PairSpansText(diff: Differ, dels: seq<DiffLine>, adds: seq<DiffLine>, i: nat)
    requires SoundDiffer(diff)
    ensures i < |dels| ==> SpansText(PairSpans(diff, dels, adds, i).0) == SanitizeLine(dels[i].content)
    ensures i < |adds| ==> SpansText(PairSpans(diff, dels, adds, i).1) == SanitizeLine(adds[i].content)
  {
    hide SanitizeLine, EmphasizedPair;
    if i < |dels| && i < |adds| {
      EmphasisKeepsText(diff, SanitizeLine(dels[i].content), SanitizeLine(adds[i].content));
    } else if i < |dels| {
      PlainShows(SanitizeLine(dels[i].content));
    } else if i < |adds| {
      PlainShows(SanitizeLine(adds[i].content));
    }
  }

  /** Lines of one kind only, as the deletions or the additions of a block are. */
  ghost predicate AllKind(lines: seq<DiffLine>, kind: LineKind) {
    forall i :: 0 <= i < |lines| ==> lines[i].kind == kind
  }

  lemma {:induction false} BlockSides(block: seq<DiffLine>)
    requires forall i :: 0 <= i < |block| ==> block[i].kind != Context
    ensures AllKind(SideLines(block, Old), Deletion) && AllKind(SideLines(block, New), Addition)
    ensures |SideLines(block, Old)| + |SideLines(block, New)| == |block|
  {
    if block != [] { BlockSides(block[..|block| - 1]); }
  }

  lemma {:induction false} PairRowsShow(diff: Differ, fileId: string, hunk: nat, dels: seq<DiffLine>,
                                        adds: seq<DiffLine>, n: nat)
    requires SoundDiffer(diff) && AllKind(dels, Deletion) && AllKind(adds, Addition)
    ensures var rows := PairRows(diff, fileId, hunk, dels, adds, n);
      && |rows| == n
      && ShowsAll(SideCells(rows, Old), dels[..Min(n, |dels|)])
      && ShowsAll(SideCells(rows, New), adds[..Min(n, |adds|)])
  {
    hide PairRow, PairRows, Shows, ShowsAll, RowCells, SideCells, PairSpans, SoundDiffer, AllKind, SanitizeLine;
    if n == 0 {
      NoPairRows(diff, fileId, hunk, dels, adds);
    } else {
      PairRowsShow(diff, fileId, hunk, dels, adds, n - 1);
      PairRowsPush(diff, fileId, hunk, dels, adds, n);
      PairSpansText(diff, dels, adds, n - 1);
      PairStep(diff, fileId, hunk, dels, adds, n);
      GrowPrefix(dels, n);
      GrowPrefix(adds, n);
      var before, row := PairRows(diff, fileId, hunk, dels, adds, n - 1),
        PairRow(diff, fileId, hunk, dels, adds, n - 1);
      ShowsConcat(SideCells(before, Old), RowCells(row, Old),
                  dels[..Min(n - 1, |dels|)], if n <= |dels| then [dels[n - 1]] else []);
      ShowsConcat(SideCells(before, New), RowCells(row, New),
                  adds[..Min(n - 1, |adds|)], if n <= |adds| then [adds[n - 1]] else []);
    }
  }

  lemma NoPairRows(diff: Differ, fileId: string, hunk: nat, dels: seq<DiffLine>, adds: seq<DiffLine>)
    ensures PairRows(diff, fileId, hunk, dels, adds, 0) == []
    ensures ShowsAll(SideCells([], Old), dels[..Min(0, |dels|)]) && ShowsAll(SideCells([], New), adds[..Min(0, |adds|)])
  {
  }

  lemma PairRowsPush(diff: Differ, fileId: string, hunk: nat, dels: seq<DiffLine>, adds: seq<DiffLine>, n: nat)
    requires n > 0
    ensures PairRows(diff, fileId, hunk, dels, adds, n)
         == PairRows(diff, fileId, hunk, dels, adds, n - 1) + [PairRow(diff, fileId, hunk, dels, adds, n - 1)]
  {
    hide PairRow;
  }

  lemma GrowPrefix(lines: seq<DiffLine>, n: nat)
    requires n > 0
    ensures lines[..Min(n, |lines|)] == lines[..Min(n - 1, |lines|)] + (if n <= |lines| then [lines[n - 1]] else [])
  {
  }

  lemma PairStep(diff: Differ, fileId: string, hunk: nat, dels: seq<DiffLine>, adds: seq<DiffLine>, n: nat)
    requires n > 0 && AllKind(dels, Deletion) && AllKind(adds, Addition)
    requires n <= |dels| ==> SpansText(PairSpans(diff, dels, adds, n - 1).0) == SanitizeLine(dels[n - 1].content)
    requires n <= |adds| ==> SpansText(PairSpans(diff, dels, adds, n - 1).1) == SanitizeLine(adds[n - 1].content)
    ensures var before := PairRows(diff, fileId, hunk, dels, adds, n - 1);
      var rows := PairRows(diff, fileId, hunk, dels, adds, n);
      && SideCells(rows, Old) == SideCells(before, Old)
           + RowCells(PairRow(diff, fileId, hunk, dels, adds, n - 1), Old)
      && SideCells(rows, New) == SideCells(before, New)
           + RowCells(PairRow(diff, fileId, hunk, dels, adds, n - 1), New)
      && ShowsAll(RowCells(PairRow(diff, fileId, hunk, dels, adds, n - 1), Old), if n <= |dels| then [dels[n - 1]]
           else [])
      && ShowsAll(RowCells(PairRow(diff, fileId, hunk, dels, adds, n - 1), New), if n <= |adds| then [adds[n - 1]]
           else [])
  {
    hide PairSpans, SanitizeLine, SpansText;
    var before, rows := PairRows(diff, fileId, hunk, dels, adds, n - 1), PairRows(diff, fileId, hunk, dels, adds, n);
    assert rows[..|rows| - 1] == before;
  }

  /** The n-th row of a block shows its n-th line. */
  lemma BlockStackRowShows(diff: Differ, fileId: string, hunk: nat, block: seq<DiffLine>, i: nat)
    requires SoundDiffer(diff) && i < |block| && block[i].kind != Context
    ensures var row := StackRow(fileId, hunk, block[i], BlockSpans(diff, block, i));
      row.Stack? && Shows(row.cell, block[i])
  {
    hide SanitizeLine, SoundDiffer, PairSpans, SideLines, SpansText;
    CountsBelow(block, i, block[i].kind);
    var dels, adds := SideLines(block, Old), SideLines(block, New);
    PairSpansText(diff, dels, adds, |SideLines(block[..i], if block[i].kind == Deletion then Old else New)|);
  }

  lemma {:induction false} BlockStackShows(diff: Differ, fileId: string, hunk: nat, block: seq<DiffLine>, n: nat,
                                           side: Side)
    requires SoundDiffer(diff) && n <= |block|
    requires forall i :: 0 <= i < |block| ==> block[i].kind != Context
    ensures var rows := BlockStackRows(diff, fileId, hunk, block, n);
      && |rows| == n
      && (forall i :: 0 <= i < n ==> rows[i].Stack? && Shows(rows[i].cell, block[i]))
      && ShowsAll(SideCells(rows, side), SideLines(block[..n], side))
  {
    hide *;
    if n == 0 {
      NoBlockRows(diff, fileId, hunk, block, side);
    } else {
      var i := n - 1;
      BlockStackShows(diff, fileId, hunk, block, i, side);
      BlockStackPush(diff, fileId, hunk, block, n);
      BlockStackRowShows(diff, fileId, hunk, block, i);
      SideStep(block, i, side);
      var before, row := BlockStackRows(diff, fileId, hunk, block, i),
        StackRow(fileId, hunk, block[i], BlockSpans(diff, block, i));
      SideCellsPush(before, row, side);
      RowShows(row, block[i], side);
      ShowsConcat(SideCells(before, side), RowCells(row, side), SideLines(block[..i], side),
                  if OnSide(block[i].kind, side) then [block[i]] else []);
    }
  }

  lemma NoBlockRows(diff: Differ, fileId: string, hunk: nat, block: seq<DiffLine>, side: Side)
    ensures BlockStackRows(diff, fileId, hunk, block, 0) == []
    ensures ShowsAll(SideCells([], side), SideLines(block[..0], side))
  {
  }

  lemma BlockStackPush(diff: Differ, fileId: string, hunk: nat, block: seq<DiffLine>, n: nat)
    requires 0 < n <= |block|
    ensures BlockStackRows(diff, fileId, hunk, block, n) == BlockStackRows(diff, fileId, hunk, block, n - 1)
      + [StackRow(fileId, hunk, block[n - 1], BlockSpans(diff, block, n - 1))]
  {
    hide StackRow, BlockSpans;
  }

  lemma RowShows(row: LineRow, line: DiffLine, side: Side)
    requires row.Stack? && Shows(row.cell, line)
    ensures ShowsAll(RowCells(row, side), if OnSide(line.kind, side) then [line] else [])
  {
    hide SpansText, SanitizeLine;
  }

  function FirstBlock(lines: seq<DiffLine>, at: nat): (end: nat)
    requires at < |lines|
    ensures at < end <= |lines|
  {
    if lines[at].kind == Context then at + 1 else BlockEnd(lines, at + 1)
  }

  lemma SplitStep(diff: Differ, fileId: string, hunk: nat, lines: seq<DiffLine>, at: nat, side: Side)
    requires SoundDiffer(diff) && at < |lines|
    ensures var end := FirstBlock(lines, at);
      exists rows :: ShowsAll(SideCells(rows, side), SideLines(lines[at..end], side))
        && SplitRows(diff, fileId, hunk, lines, at) == rows + SplitRows(diff, fileId, hunk, lines, end)
  {
    hide ShowsAll, BlockRows, ContextRow, SideCells, SideLines;
    var end := FirstBlock(lines, at);
    if lines[at].kind == Context {
      assert lines[at..end] == [lines[at]];
      ContextShows(fileId, hunk, lines[at], side);
      assert SplitRows(diff, fileId, hunk, lines, at)
          == [ContextRow(fileId, hunk, lines[at])] + SplitRows(diff, fileId, hunk, lines, end);
    } else {
      BlockShows(diff, fileId, hunk, lines[at..end], side);
      assert SplitRows(diff, fileId, hunk, lines, at)
          == BlockRows(diff, fileId, hunk, lines[at..end]) + SplitRows(diff, fileId, hunk, lines, end);
    }
  }

  /** Showing a block and then the rest of the lines shows them all. */
  lemma JoinBlocks(first: seq<LineRow>, rest: seq<LineRow>, lines: seq<DiffLine>, at: nat, end: nat, side: Side)
    requires at <= end <= |lines|
    requires ShowsAll(SideCells(first, side), SideLines(lines[at..end], side))
    requires ShowsAll(SideCells(rest, side), SideLines(lines[end..], side))
    ensures ShowsAll(SideCells(first + rest, side), SideLines(lines[at..], side))
  {
    hide *;
    assert lines[at..] == lines[at..end] + lines[end..];
    SideLinesConcat(lines[at..end], lines[end..], side);
    SideCellsConcat(first, rest, side);
    ShowsConcat(SideCells(first, side), SideCells(rest, side), SideLines(lines[at..end], side),
      SideLines(lines[end..], side));
  }

  /** The split rows of a hunk show each side's lines exactly once, in order, next to blank cells only. */
  lemma {:induction false} SplitShows(diff: Differ, fileId: string, hunk: nat, lines: seq<DiffLine>, at: nat,
                                      side: Side)
    requires SoundDiffer(diff) && at <= |lines|
    ensures ShowsAll(SideCells(SplitRows(diff, fileId, hunk, lines, at), side), SideLines(lines[at..], side))
    decreases |lines| - at
  {
    if at < |lines| {
      hide *;
      var end := FirstBlock(lines, at);
      SplitStep(diff, fileId, hunk, lines, at, side);
      SplitShows(diff, fileId, hunk, lines, end, side);
      var rest := SplitRows(diff, fileId, hunk, lines, end);
      var rows :| ShowsAll(SideCells(rows, side), SideLines(lines[at..end], side))
        && SplitRows(diff, fileId, hunk, lines, at) == rows + rest;
      JoinBlocks(rows, rest, lines, at, end, side);
    }
  }

  lemma ContextShows(fileId: string, hunk: nat, line: DiffLine, side: Side)
    requires line.kind == Context
    ensures ShowsAll(SideCells([ContextRow(fileId, hunk, line)], side), SideLines([line], side))
    ensures var row := StackRow(fileId, hunk, line, PlainText(SanitizeLine(line.content)));
      Shows(row.cell, line) && ShowsAll(SideCells([row], side), SideLines([line], side))
  {
    PlainShows(SanitizeLine(line.content));
    var split, stack := ContextRow(fileId, hunk, line),
      StackRow(fileId, hunk, line, PlainText(SanitizeLine(line.content)));
    assert [split][..0] == [] && [stack][..0] == [] && [line][..0] == [];
  }

  lemma BlockShows(diff: Differ, fileId: string, hunk: nat, block: seq<DiffLine>, side: Side)
    requires SoundDiffer(diff) && forall i :: 0 <= i < |block| ==> block[i].kind != Context
    ensures ShowsAll(SideCells(BlockRows(diff, fileId, hunk, block), side), SideLines(block, side))
    ensures |BlockRows(diff, fileId, hunk, block)| == Max(|SideLines(block, Old)|, |SideLines(block, New)|)
  {
    BlockSides(block);
    var dels, adds := SideLines(block, Old), SideLines(block, New);
    PairRowsShow(diff, fileId, hunk, dels, adds, Max(|dels|, |adds|));
    assert dels[..|dels|] == dels && adds[..|adds|] == adds;
  }

  lemma StackStep(diff: Differ, fileId: string, hunk: nat, lines: seq<DiffLine>, at: nat, side: Side)
    requires SoundDiffer(diff) && at < |lines|
    ensures var end := FirstBlock(lines, at);
      exists rows :: ShowsAll(SideCells(rows, side), SideLines(lines[at..end], side))
        && |rows| == end - at && StackOneToOne(rows, lines[at..end])
        && StackRows(diff, fileId, hunk, lines, at) == rows + StackRows(diff, fileId, hunk, lines, end)
  {
    hide ShowsAll, BlockStackRows, SideCells, SideLines, Shows;
    var end := FirstBlock(lines, at);
    var block := lines[at..end];
    if lines[at].kind == Context {
      assert block == [lines[at]];
      ContextShows(fileId, hunk, lines[at], side);
      var row := StackRow(fileId, hunk, lines[at], PlainText(SanitizeLine(lines[at].content)));
      assert StackOneToOne([row], block);
      assert StackRows(diff, fileId, hunk, lines, at) == [row] + StackRows(diff, fileId, hunk, lines, end);
    } else {
      BlockStackShows(diff, fileId, hunk, block, |block|, side);
      assert block[..|block|] == block;
      var rows := BlockStackRows(diff, fileId, hunk, block, |block|);
      assert StackOneToOne(rows, block);
      assert StackRows(diff, fileId, hunk, lines, at) == rows + StackRows(diff, fileId, hunk, lines, end);
    }
  }

  ghost predicate StackOneToOne(rows: seq<LineRow>, lines: seq<DiffLine>) {
    |rows| == |lines| && forall i :: 0 <= i < |rows| ==> rows[i].Stack? && Shows(rows[i].cell, lines[i])
  }

  /** Stack rows are the hunk's lines one by one, and on each side exactly that side's lines. */
  lemma {:induction false} StackShows(diff: Differ, fileId: string, hunk: nat, lines: seq<DiffLine>, at: nat,
                                      side: Side)
    requires SoundDiffer(diff) && at <= |lines|
    ensures StackOneToOne(StackRows(diff, fileId, hunk, lines, at), lines[at..])
    ensures ShowsAll(SideCells(StackRows(diff, fileId, hunk, lines, at), side), SideLines(lines[at..], side))
    decreases |lines| - at
  {
    if at < |lines| {
      hide *;
      var end := FirstBlock(lines, at);
      StackStep(diff, fileId, hunk, lines, at, side);
      StackShows(diff, fileId, hunk, lines, end, side);
      var rest := StackRows(diff, fileId, hunk, lines, end);
      var rows :| ShowsAll(SideCells(rows, side), SideLines(lines[at..end], side))
        && |rows| == end - at && StackOneToOne(rows, lines[at..end])
        && StackRows(diff, fileId, hunk, lines, at) == rows + rest;
      JoinBlocks(rows, rest, lines, at, end, side);
      JoinOneToOne(rows, rest, lines, at, end);
    }
  }

  lemma JoinOneToOne(first: seq<LineRow>, rest: seq<LineRow>, lines: seq<DiffLine>, at: nat, end: nat)
    requires at <= end <= |lines|
    requires StackOneToOne(first, lines[at..end]) && StackOneToOne(rest, lines[end..])
    ensures StackOneToOne(first + rest, lines[at..])
  {
    hide Shows;
    var all := first + rest;
    forall i | 0 <= i < |all| ensures all[i].Stack? && Shows(all[i].cell, lines[at..][i]) {
      if i >= |first| { assert all[i] == rest[i - |first|] && lines[at..][i] == lines[end..][i - |first|]; }
    }
  }

  function HunkRows(layout: Layout, diff: Differ, fileId: string, hunk: nat, lines: seq<DiffLine>): seq<LineRow> {
    if layout == SplitLayout then SplitRows(diff, fileId, hunk, lines, 0) else StackRows(diff, fileId, hunk, lines, 0)
  }

  /** Whatever the layout, each side of a hunk is shown line for line. */
  lemma LayoutsAgree(layout: Layout, diff: Differ, fileId: string, hunk: nat, lines: seq<DiffLine>, side: Side)
    requires SoundDiffer(diff)
    ensures ShowsAll(SideCells(HunkRows(layout, diff, fileId, hunk, lines), side), SideLines(lines, side))
  {
    hide ShowsAll, SideCells, SideLines;
    assert lines[0..] == lines;
    SplitShows(diff, fileId, hunk, lines, 0, side);
    StackShows(diff, fileId, hunk, lines, 0, side);
  }

  // ---- Finding cells and lines in each other ----------------------------------------------

  lemma {:induction false} CellIsAmong(rows: seq<LineRow>, side: Side, i: nat, cell: ReviewCell)
    requires i < |rows| && cell in RowCells(rows[i], side)
    ensures cell in SideCells(rows, side)
  {
    if i < |rows| - 1 { CellIsAmong(rows[..|rows| - 1], side, i, cell); }
  }

  lemma {:induction false} SideLineIsLine(lines: seq<DiffLine>, side: Side, line: DiffLine)
    requires line in SideLines(lines, side)
    ensures line in lines && OnSide(line.kind, side)
  {
    if lines != [] && line in SideLines(lines[..|lines| - 1], side) {
      SideLineIsLine(lines[..|lines| - 1], side, line);
    }
  }

  lemma {:induction false} LineIsSideLine(lines: seq<DiffLine>, side: Side, line: DiffLine)
    requires line in lines && OnSide(line.kind, side)
    ensures line in SideLines(lines, side)
  {
    if line in lines[..|lines| - 1] { LineIsSideLine(lines[..|lines| - 1], side, line); }
  }

  lemma {:induction false} RowOfCell(rows: seq<LineRow>, side: Side, cell: ReviewCell) returns (i: nat)
    requires cell in SideCells(rows, side)
    ensures i < |rows| && cell in RowCells(rows[i], side)
  {
    var last := |rows| - 1;
    if cell in RowCells(rows[last], side) { i := last; } else { i := RowOfCell(rows[..last], side, cell); }
  }

  /** The line a cell of a laid-out hunk shows. */
  lemma LineOfCell(layout: Layout, diff: Differ, fileId: string, hunk: nat, lines: seq<DiffLine>, side: Side, i: nat,
                   cell: ReviewCell)
    returns (line: DiffLine)
    requires SoundDiffer(diff) && i < |HunkRows(layout, diff, fileId, hunk, lines)|
    requires cell in RowCells(HunkRows(layout, diff, fileId, hunk, lines)[i], side)
    ensures line in lines && OnSide(line.kind, side) && Shows(cell, line)
  {
    hide HunkRows, SideCells, SideLines, RowCells, Shows;
    var rows := HunkRows(layout, diff, fileId, hunk, lines);
    LayoutsAgree(layout, diff, fileId, hunk, lines, side);
    CellIsAmong(rows, side, i, cell);
    var j :| 0 <= j < |SideCells(rows, side)| && SideCells(rows, side)[j] == cell;
    line := SideLines(lines, side)[j];
    SideLineIsLine(lines, side, line);
  }

  /** The row and cell of a laid-out hunk that show a line. */
  lemma CellOfLine(layout: Layout, diff: Differ, fileId: string, hunk: nat, lines: seq<DiffLine>, side: Side,
                   line: DiffLine)
    returns (i: nat, cell: ReviewCell)
    requires SoundDiffer(diff) && line in lines && OnSide(line.kind, side)
    ensures i < |HunkRows(layout, diff, fileId, hunk, lines)|
    ensures cell in RowCells(HunkRows(layout, diff, fileId, hunk, lines)[i], side) && Shows(cell, line)
  {
    hide HunkRows, SideCells, SideLines, RowCells, Shows, OnSide;
    var rows := HunkRows(layout, diff, fileId, hunk, lines);
    LayoutsAgree(layout, diff, fileId, hunk, lines, side);
    LineIsSideLine(lines, side, line);
    var j :| 0 <= j < |SideLines(lines, side)| && SideLines(lines, side)[j] == line;
    cell := SideCells(rows, side)[j];
    i := RowOfCell(rows, side, cell);
  }
}
