/** Expanding every gap shows the whole file: line numbers 1..length once each, in order, with their text. */
module PlanProofs {
  import opened Text
  import opened Sanitize
  import opened DiffModel
  import opened Emphasis
  import opened Context
  import opened Rows
  import opened Plan

  /** The cells of a plan that show one side, in row order. */
  function PlanCells(rows: seq<Row>, side: Side): seq<ReviewCell> {
    if rows == [] then [] else
      var last := rows[|rows| - 1];
      PlanCells(rows[..|rows| - 1], side) + (if last.Line? then RowCells(last.row, side) else [])
  }

  lemma PlanCellsPush(rows: seq<Row>, row: Row, side: Side)
    ensures PlanCells(rows + [row], side) == PlanCells(rows, side) + (if row.Line? then RowCells(row.row, side) else [])
  {
    hide RowCells;
    assert (rows + [row])[..|rows|] == rows;
  }

  lemma {:induction false} PlanCellsConcat(a: seq<Row>, b: seq<Row>, side: Side)
    ensures PlanCells(a + b, side) == PlanCells(a, side) + PlanCells(b, side)
  {
    if b == [] {
      assert a + b == a;
    } else {
      hide PlanCells, RowCells;
      var front, last := b[..|b| - 1], b[|b| - 1];
      PlanCellsConcat(a, front, side);
      PlanCellsPush(a + front, last, side);
      PlanCellsPush(front, last, side);
      Assoc(a, front, [last]);
      assert front + [last] == b;
      Assoc(PlanCells(a, side), PlanCells(front, side), if last.Line? then RowCells(last.row, side) else []);
    }
  }

  lemma {:induction false} PlanCellsLift(rows: seq<LineRow>, side: Side)
    ensures PlanCells(Lift(rows), side) == SideCells(rows, side)
  {
    if rows != [] {
      PlanCellsLift(rows[..|rows| - 1], side);
      assert Lift(rows)[..|rows| - 1] == Lift(rows[..|rows| - 1]);
    }
  }

  function CellNumber(cell: ReviewCell, side: Side): Option<nat> {
    if side == Old then cell.oldLine else cell.newLine
  }

  /** Cell i carries number numbers[i] and the sanitized source text of that line. */
  ghost predicate ShowSource(cells: seq<ReviewCell>, numbers: seq<nat>, source: seq<string>, side: Side) {
    |cells| == |numbers| && forall i :: 0 <= i < |cells| ==>
      && CellNumber(cells[i], side) == Some(numbers[i])
      && 1 <= numbers[i] <= |source|
      && SpansText(cells[i].spans) == SanitizeLine(source[numbers[i] - 1])
  }

  lemma ShowSourceConcat(a: seq<ReviewCell>, b: seq<ReviewCell>, m: seq<nat>, n: seq<nat>, source: seq<string>,
                         side: Side)
    requires ShowSource(a, m, source, side) && ShowSource(b, n, source, side)
    ensures ShowSource(a + b, m + n, source, side)
  {
    hide SanitizeLine, SpansText;
  }

  /** The hunk's lines on this side are the source's lines from its start on. */
  ghost predicate TakenFrom(hunk: Hunk, source: seq<string>, side: Side) {
    var lines := SideLines(hunk.lines, side);
    forall i :: 0 <= i < |lines| ==>
      && NumberOn(lines[i], side) == Some(Start(hunk, side) + i)
      && 1 <= Start(hunk, side) + i <= |source|
      && SanitizeLine(lines[i].content) == SanitizeLine(source[Start(hunk, side) + i - 1])
  }

  lemma HunkShowsSource(file: DiffFile, layout: Layout, diff: Differ, k: nat, source: seq<string>, side: Side)
    requires k < |file.hunks| && SoundDiffer(diff) && TakenFrom(file.hunks[k], source, side)
    ensures ShowSource(PlanCells(Lift(HunkRows(layout, diff, file.id, k, file.hunks[k].lines)), side),
                       Numbers(Start(file.hunks[k], side), Count(file.hunks[k], side)), source, side)
  {
    hide SanitizeLine, SpansText, HunkRows, SideLines;
    var lines := file.hunks[k].lines;
    LayoutsAgree(layout, diff, file.id, k, lines, side);
    PlanCellsLift(HunkRows(layout, diff, file.id, k, lines), side);
  }

  lemma {:induction false} ExpandedShow(fileId: string, layout: Layout, hunk: nat, lines: seq<ContextLine>, n: nat,
                                        side: Side)
    requires n <= |lines|
    ensures var cells := PlanCells(ExpandedRows(fileId, layout, hunk, lines, n), side);
      |cells| == n && forall i :: 0 <= i < n ==> cells[i] == ExpandedCell(lines[i])
  {
    if n > 0 {
      hide ExpandedCell, ExpandedRow, PlanCells, RowCells, ExpandedRows;
      ExpandedRowsPush(fileId, layout, hunk, lines, n);
      ExpandedShow(fileId, layout, hunk, lines, n - 1, side);
      var row := ExpandedRow(fileId, layout, hunk, lines[n - 1]);
      PlanCellsPush(ExpandedRows(fileId, layout, hunk, lines, n - 1), row, side);
      ExpandedRowCells(fileId, layout, hunk, lines[n - 1], side);
    }
  }

  lemma ExpandedRowsPush(fileId: string, layout: Layout, hunk: nat, lines: seq<ContextLine>, n: nat)
    requires 0 < n <= |lines|
    ensures ExpandedRows(fileId, layout, hunk, lines, n)
         == ExpandedRows(fileId, layout, hunk, lines, n - 1) + [ExpandedRow(fileId, layout, hunk, lines[n - 1])]
  {
    hide ExpandedRow;
  }

  lemma ExpandedRowCells(fileId: string, layout: Layout, hunk: nat, line: ContextLine, side: Side)
    ensures var row := ExpandedRow(fileId, layout, hunk, line);
      row.Line? && RowCells(row.row, side) == [ExpandedCell(line)]
  {
    hide PlainText;
  }

  lemma GapShowsSource(fileId: string, layout: Layout, context: FileContext, gap: CollapsedGap, text: string,
                       side: Side)
    requires context.source == Some(Ok(LoadedSource(side, text))) && gap.key in context.expanded
    requires 1 <= gap.Range(side).start <= gap.Range(side).end <= |SourceLines(text)|
    ensures ShowSource(PlanCells(GapRows(fileId, layout, Some(context), gap), side),
                       GapSpan(Some(gap), side), SourceLines(text), side)
  {
    hide SanitizeLine, SourceLines, ExpandedCell, PlanCells, ExpandedRows, ShowSource, GapSpan;
    var (lines, caption) := Expansion(Some(context), gap);
    var all := GapRows(fileId, layout, Some(context), gap);
    GapRowsCells(fileId, layout, Some(context), gap, side);
    ExpandedShow(fileId, layout, gap.key.hunkIndex, lines, |lines|, side);
    ExpandedCellsShow(lines, PlanCells(all, side), gap, text, side);
  }

  /** The caption row of a gap shows no cell. */
  lemma GapRowsCells(fileId: string, layout: Layout, context: Option<FileContext>, gap: CollapsedGap, side: Side)
    ensures var lines := Expansion(context, gap).0;
      PlanCells(GapRows(fileId, layout, context, gap), side)
        == PlanCells(ExpandedRows(fileId, layout, gap.key.hunkIndex, lines, |lines|), side)
  {
    hide Expansion, ExpandedRows, RowCells;
    var lines := Expansion(context, gap).0;
    var all, rows := GapRows(fileId, layout, context, gap),
      ExpandedRows(fileId, layout, gap.key.hunkIndex, lines, |lines|);
    PlanCellsConcat([all[0]], rows, side);
    assert all == [all[0]] + rows && [all[0]][..0] == [];
  }

  lemma ExpandedCellsShow(lines: seq<ContextLine>, cells: seq<ReviewCell>, gap: CollapsedGap, text: string, side: Side)
    requires 1 <= gap.Range(side).start && ExpandGapLines(gap, text, side) == Ok(lines)
    requires |cells| == |lines| && forall i :: 0 <= i < |cells| ==> cells[i] == ExpandedCell(lines[i])
    ensures ShowSource(cells, GapSpan(Some(gap), side), SourceLines(text), side)
  {
    hide SanitizeLine, SourceLines, SpansText, PlainText;
    var numbers, source := GapSpan(Some(gap), side), SourceLines(text);
    assert |numbers| == |lines|;
    forall i | 0 <= i < |cells|
      ensures CellNumber(cells[i], side) == Some(numbers[i]) && 1 <= numbers[i] <= |source|
      ensures SpansText(cells[i].spans) == SanitizeLine(source[numbers[i] - 1])
    {
      PlainShows(lines[i].text);
      assert cells[i] == ExpandedCell(lines[i]);
    }
  }

  lemma {:induction false} CursorsGrow(hunks: seq<Hunk>, k: nat, n: nat, side: Side)
    requires k <= n <= |hunks|
    ensures 1 <= CursorsAfter(hunks[..k]).On(side) <= CursorsAfter(hunks[..n]).On(side)
    decreases n
  {
    hide CursorsAfter, SideLines;
    if n == 0 {
      FirstCursors(hunks);
    } else {
      CursorsGrow(hunks, if k < n then k else 0, n - 1, side);
      CursorStep(hunks, n - 1);
    }
  }

  lemma FirstCursors(hunks: seq<Hunk>)
    ensures CursorsAfter(hunks[..0]) == Cursors(1, 1)
  {
  }

  /** Every gap of the file is expanded and its source has been loaded for this side. */
  ghost predicate FullyExpanded(file: DiffFile, context: FileContext, text: string, side: Side) {
    && context.source == Some(Ok(LoadedSource(side, text)))
    && forall i :: 0 <= i < |GapsOf(file, Some(context))| ==> GapsOf(file, Some(context))[i].key in context.expanded
  }

  /** The hunks are ordered, come from this source and do not run past its end. */
  ghost predicate DiffOf(file: DiffFile, text: string, side: Side) {
    && file.hunks != []
    && Ordered(file.hunks, side)
    && CursorsAfter(file.hunks).On(side) <= |SourceLines(text)| + 1
    && forall k :: 0 <= k < |file.hunks| ==> TakenFrom(file.hunks[k], SourceLines(text), side)
  }

  lemma {:induction false} FindIsMember(gaps: seq<CollapsedGap>, k: nat)
    ensures FindBefore(gaps, k).Some? ==> FindBefore(gaps, k).value in gaps
    ensures FindTrailing(gaps).Some? ==> FindTrailing(gaps).value in gaps
  {
    if gaps != [] { FindIsMember(gaps[1..], k); }
  }

  lemma GapInSource(file: DiffFile, context: FileContext, text: string, side: Side, k: nat)
    requires DiffOf(file, text, side) && context.source == Some(Ok(LoadedSource(side, text))) && k < |file.hunks|
    ensures var gaps := GapsOf(file, Some(context));
      && (FindBefore(gaps, k).Some? ==> InSource(FindBefore(gaps, k).value, |SourceLines(text)|, side))
      && (FindTrailing(gaps).Some? ==> InSource(FindTrailing(gaps).value, |SourceLines(text)|, side))
  {
    hide SourceLines, SideLines, CollapsedGaps, FindBefore, FindTrailing;
    FindInCollapsed(file.id, file.hunks, SourceLength(context), k);
    CursorsGrow(file.hunks, k, |file.hunks|, side);
    CursorsGrow(file.hunks, k + 1, |file.hunks|, side);
    CursorStep(file.hunks, k);
    assert file.hunks[..|file.hunks|] == file.hunks;
  }

  ghost predicate InSource(gap: CollapsedGap, length: nat, side: Side) {
    1 <= gap.Range(side).start <= gap.Range(side).end <= length
  }

  lemma OptionalGapShows(file: DiffFile, layout: Layout, context: FileContext, gap: Option<CollapsedGap>, text: string,
                         side: Side)
    requires context.source == Some(Ok(LoadedSource(side, text)))
    requires gap.Some? ==> gap.value.key in context.expanded && InSource(gap.value, |SourceLines(text)|, side)
    ensures ShowSource(PlanCells(OptionalGapRows(file.id, layout, Some(context), gap), side),
                       GapSpan(gap, side), SourceLines(text), side)
  {
    if gap.Some? { GapShowsSource(file.id, layout, context, gap.value, text, side); }
  }

  lemma HeaderShowsNothing(file: DiffFile, headers: bool, k: nat, side: Side)
    requires k < |file.hunks|
    ensures PlanCells(HeaderRows(file, headers, k), side) == []
  {
    hide SanitizeLine;
    var rows := HeaderRows(file, headers, k);
    if headers { assert rows[..0] == []; }
  }

  lemma {:induction false} SectionsShowSource(file: DiffFile, layout: Layout, headers: bool, diff: Differ,
                                              context: FileContext, text: string, side: Side, n: nat)
    requires SoundDiffer(diff) && DiffOf(file, text, side) && FullyExpanded(file, context, text, side)
    requires n <= |file.hunks|
    ensures var gaps := GapsOf(file, Some(context));
      ShowSource(PlanCells(HunkSections(file, layout, headers, diff, Some(context), gaps, n), side),
                 Numbered(gaps, file.hunks, n, side), SourceLines(text), side)
  {
    hide ShowSource, SourceLines, OptionalGapRows, HeaderRows, HunkRows, GapSpan, GapsOf, Numbers, FindBefore;
    hide TakenFrom, Ordered, CursorsAfter, SideLines, Lift, InSource;
    var gaps := GapsOf(file, Some(context));
    if n == 0 {
      EmptyShows(SourceLines(text), side);
    } else {
      var k := n - 1;
      SectionsShowSource(file, layout, headers, diff, context, text, side, k);
      FindIsMember(gaps, k);
      GapInSource(file, context, text, side, k);
      var before := HunkSections(file, layout, headers, diff, Some(context), gaps, k);
      var gap := FindBefore(gaps, k);
      var gapRows, header := OptionalGapRows(file.id, layout, Some(context), gap), HeaderRows(file, headers, k);
      var lines := Lift(HunkRows(layout, diff, file.id, k, file.hunks[k].lines));
      OptionalGapShows(file, layout, context, gap, text, side);
      HeaderShowsNothing(file, headers, k, side);
      HunkShowsSource(file, layout, diff, k, SourceLines(text), side);
      JoinSection(before, gapRows, header, lines, Numbered(gaps, file.hunks, k, side), GapSpan(gap, side),
                  Numbers(Start(file.hunks[k], side), Count(file.hunks[k], side)), SourceLines(text), side);
    }
  }

  lemma EmptyShows(source: seq<string>, side: Side)
    ensures ShowSource(PlanCells([], side), [], source, side)
  {
  }

  lemma JoinSection(before: seq<Row>, gapRows: seq<Row>, header: seq<Row>, lines: seq<Row>,
                    m: seq<nat>, g: seq<nat>, h: seq<nat>, source: seq<string>, side: Side)
    requires ShowSource(PlanCells(before, side), m, source, side)
    requires ShowSource(PlanCells(gapRows, side), g, source, side)
    requires PlanCells(header, side) == []
    requires ShowSource(PlanCells(lines, side), h, source, side)
    ensures ShowSource(PlanCells(before + gapRows + header + lines, side), m + g + h, source, side)
  {
    hide *;
    PlanCellsConcat(before, gapRows, side);
    PlanCellsConcat(before + gapRows, header, side);
    PlanCellsConcat(before + gapRows + header, lines, side);
    ShowSourceConcat(PlanCells(before, side), PlanCells(gapRows, side), m, g, source, side);
    ShowSourceConcat(PlanCells(before + gapRows, side), PlanCells(lines, side), m + g, h, source, side);
    assert PlanCells(before + gapRows, side) + [] == PlanCells(before + gapRows, side);
  }

  /** Cells that show source lines show one run of numbers only. */
  lemma NumbersAreShown(cells: seq<ReviewCell>, a: seq<nat>, b: seq<nat>, source: seq<string>, side: Side)
    requires ShowSource(cells, a, source, side) && ShowSource(cells, b, source, side)
    ensures a == b
  {
    forall i | 0 <= i < |a| ensures a[i] == b[i] {
      assert CellNumber(cells[i], side) == Some(a[i]) && CellNumber(cells[i], side) == Some(b[i]);
    }
  }

  /**
   * With every gap expanded, either layout shows lines 1..length of the chosen side once each, in order, with the
   * sanitized source text, if and only if the diff of that source is aligned on the side.
   */
  lemma FullExpansion(file: DiffFile, layout: Layout, headers: bool, diff: Differ, context: FileContext, text: string,
                      side: Side)
    requires SoundDiffer(diff) && DiffOf(file, text, side) && FullyExpanded(file, context, text, side)
    ensures var cells := PlanCells(PlanWithContext(file, layout, headers, diff, Some(context)).rows, side);
      ShowSource(cells, Numbers(1, |SourceLines(text)|), SourceLines(text), side) <==> Aligned(file.hunks, side)
  {
    hide ShowSource, OptionalGapRows, HunkSections, GapSpan, Numbers, FindTrailing, FindBefore, Numbered;
    hide CursorsAfter, LargestInHunks, SourceLines, CollapsedGaps, Anchors, Aligned;
    var gaps, length := GapsOf(file, Some(context)), |SourceLines(text)|;
    GapsPartition(file.id, file.hunks, side, length);
    SectionsShowSource(file, layout, headers, diff, context, text, side, |file.hunks|);
    FindIsMember(gaps, 0);
    GapInSource(file, context, text, side, 0);
    var gap := FindTrailing(gaps);
    OptionalGapShows(file, layout, context, gap, text, side);
    var sections := HunkSections(file, layout, headers, diff, Some(context), gaps, |file.hunks|);
    var trailing := OptionalGapRows(file.id, layout, Some(context), gap);
    PlanCellsConcat(sections, trailing, side);
    var numbers := Numbered(gaps, file.hunks, |file.hunks|, side) + GapSpan(gap, side);
    ShowSourceConcat(PlanCells(sections, side), PlanCells(trailing, side),
                     Numbered(gaps, file.hunks, |file.hunks|, side), GapSpan(gap, side), SourceLines(text), side);
    var cells := PlanCells(sections + trailing, side);
    if ShowSource(cells, Numbers(1, length), SourceLines(text), side) {
      NumbersAreShown(cells, numbers, Numbers(1, length), SourceLines(text), side);
    }
  }

  /** A line inserted after line 5, in a diff without context lines. */
  function Inserted(line: DiffLine): seq<Hunk> { [Hunk(5, 6, "", [line])] }

  /**
   * Such an insertion is ordered but not aligned: the old side starts at the line before the insertion, so the gap
   * is a line short, and line 5 of the new side is numbered by nothing.
   */
  lemma InsertionIsNotAligned(fileId: string, line: DiffLine, length: nat)
    requires line.kind == Addition && length >= 6
    ensures var hunks := Inserted(line); var gaps := CollapsedGaps(fileId, hunks, Some((New, length)));
      && Ordered(hunks, New) && CursorsAfter(hunks).On(New) <= length + 1 && !Aligned(hunks, New)
      && Numbered(gaps, hunks, |hunks|, New) + GapSpan(FindTrailing(gaps), New) != Numbers(1, length)
  {
    hide CollapsedGaps, Numbered, FindTrailing, FindBefore, GapSpan, Numbers;
    var hunks := Inserted(line);
    assert hunks[..0] == [] && [line][..0] == [];
    assert CursorsAfter(hunks[..0]) == Cursors(1, 1);
    assert SideLines([], New) == [] && SideLines([], Old) == [];
    assert SideLines([line], New) == [] + [line] && SideLines([line], Old) == [] + [];
    assert Count(hunks[0], New) == 1 && Count(hunks[0], Old) == 0;
    assert !AlignedAt(hunks, 0, New);
    GapsPartition(fileId, hunks, New, length);
  }

  // ---- Room for the numbers ---------------------------------------------------------------

  function PowerOfTen(n: nat): nat { if n == 0 then 1 else 10 * PowerOfTen(n - 1) }

  lemma {:induction false} DigitsFit(n: nat)
    ensures DecimalDigits(n) >= 1 && n < PowerOfTen(DecimalDigits(n))
    ensures DecimalDigits(n) == 1 || n >= PowerOfTen(DecimalDigits(n) - 1)
  {
    if n >= 10 { DigitsFit(n / 10); }
  }

  ghost predicate IsNumber(hunks: seq<Hunk>, n: nat) {
    exists k, i :: 0 <= k < |hunks| && 0 <= i < |hunks[k].lines| && IsNumberOf(hunks[k].lines[i], n)
  }

  predicate IsNumberOf(line: DiffLine, n: nat) { line.oldLine == Some(n) || line.newLine == Some(n) }

  lemma {:induction false} LargestIsNumber(lines: seq<DiffLine>)
    ensures forall i: nat, n: nat :: i < |lines| && IsNumberOf(lines[i], n) ==> n <= LargestNumber(lines)
    ensures LargestNumber(lines) == 0 || exists i :: 0 <= i < |lines| && IsNumberOf(lines[i], LargestNumber(lines))
  {
    if lines != [] {
      var front, last := lines[..|lines| - 1], lines[|lines| - 1];
      LargestIsNumber(front);
      assert forall i :: 0 <= i < |front| ==> lines[i] == front[i];
      assert IsNumberOf(last, LargestNumber(lines)) || LargestNumber(lines) == LargestNumber(front)
        || LargestNumber(lines) == 0;
    }
  }

  lemma {:induction false} LargestOfAll(hunks: seq<Hunk>)
    ensures forall n: nat :: IsNumber(hunks, n) ==> n <= LargestInHunks(hunks)
    ensures LargestInHunks(hunks) == 0 || IsNumber(hunks, LargestInHunks(hunks))
  {
    if hunks != [] {
      hide LargestNumber, IsNumberOf;
      var front, last := hunks[..|hunks| - 1], hunks[|hunks| - 1];
      LargestOfAll(front);
      LargestIsNumber(last.lines);
      forall n: nat ensures IsNumber(hunks, n) <==>
        IsNumber(front, n) || exists i :: 0 <= i < |last.lines| && IsNumberOf(last.lines[i], n)
      {
        if IsNumber(front, n) {
          var k, i :| 0 <= k < |front| && 0 <= i < |front[k].lines| && IsNumberOf(front[k].lines[i], n);
          assert hunks[k] == front[k];
        }
        if IsNumber(hunks, n) {
          var k, i :| 0 <= k < |hunks| && 0 <= i < |hunks[k].lines| && IsNumberOf(hunks[k].lines[i], n);
          if k < |front| { assert hunks[k] == front[k]; }
        }
      }
    }
  }

  /** The gutter has room for every line number of the diff, and no more than the largest needs. */
  lemma NumbersFit(file: DiffFile, layout: Layout, headers: bool, diff: Differ, context: Option<FileContext>)
    requires file.hunks != []
    ensures var digits := PlanWithContext(file, layout, headers, diff, context).digits;
      && digits >= 1 && (forall n: nat :: IsNumber(file.hunks, n) ==> n < PowerOfTen(digits))
      && (digits == 1 || exists n: nat :: IsNumber(file.hunks, n) && n >= PowerOfTen(digits - 1))
  {
    hide PlanRows, Anchors, LargestInHunks, DecimalDigits;
    var largest := LargestInHunks(file.hunks);
    LargestOfAll(file.hunks);
    DigitsFit(largest);
    assert DecimalDigits(largest) > 1 ==> largest > 0 by { SmallDigits(); }
  }

  lemma SmallDigits()
    ensures DecimalDigits(0) == 1
  {
  }

  // ---- What a gap says --------------------------------------------------------------------

  lemma {:induction false} ExpandedRowsAre(fileId: string, layout: Layout, hunk: nat, lines: seq<ContextLine>, n: nat)
    requires n <= |lines|
    ensures |ExpandedRows(fileId, layout, hunk, lines, n)| == n
    ensures forall i :: 0 <= i < n ==> ExpandedRows(fileId, layout, hunk, lines, n)[i].Line?
  {
    if n > 0 { ExpandedRowsAre(fileId, layout, hunk, lines, n - 1); }
  }

  /**
   * A gap is captioned with the number of its lines and, under an expanded one whose source could be read and is long
   * enough, shows as many rows; otherwise the caption says why not.
   */
  lemma GapIsShown(fileId: string, layout: Layout, context: Option<FileContext>, gap: CollapsedGap)
    ensures var rows := GapRows(fileId, layout, context, gap);
      var expanded := context.Some? && gap.key in context.value.expanded;
      var source := if context.Some? then context.value.source else None;
      && rows != [] && rows[0].Collapsed? && rows[0].gap == gap
      && rows[0].caption.count == |GapSpan(Some(gap), SourceSide(context))|
      && (forall i :: 0 < i < |rows| ==> rows[i].Line?)
      && match rows[0].caption
         case Unchanged(_) => !expanded && |rows| == 1
         case Loading(_) => expanded && source.None? && |rows| == 1
         case Failed(_, why) =>
           expanded && source.Some? && |rows| == 1
           && (source.value == Err(why) || (source.value.Ok? && why == ShortSource && RunsOut(source.value.value, gap)))
         case Hide(count) =>
           expanded && source.Some? && source.value.Ok? && |rows| == 1 + count && !RunsOut(source.value.value, gap)
  {
    hide SourceLines, SanitizeLine;
    var lines := Expansion(context, gap).0;
    ExpandedRowsAre(fileId, layout, gap.key.hunkIndex, lines, |lines|);
  }

  /** The source ends before the gap does. */
  predicate RunsOut(source: LoadedSource, gap: CollapsedGap) {
    Monus(gap.Range(source.side).start, 1) + |GapSpan(Some(gap), source.side)| > |SourceLines(source.text)|
  }
}
