/** A file's full row plan: gaps, hunk headers, line rows and the note cards placed among them. */
module Plan {
  import opened Text
  import opened Sanitize
  import opened DiffModel
  import opened Emphasis
  import opened Context
  import opened Rows

  datatype NoteTarget = NoteTarget(fileId: string, oldRange: Option<LineRange>, newRange: Option<LineRange>,
                                   hunkIndex: Option<nat>, anchorSide: Option<Side>, anchorLine: Option<nat>)

  datatype NoteCard = NoteCard(id: string, target: NoteTarget, lines: seq<string>, caret: Option<(nat, nat)>) {
    function Height(): nat { Max(|lines| + 3, 4) }
  }

  datatype GapCaption = Unchanged(count: nat) | Hide(count: nat) | Loading(count: nat)
                    | Failed(count: nat, failure: SourceFailure)

  datatype PlaceholderKind = Binary | FileTooLarge | NoTextChanges

  datatype Row = CompactedFile(key: RowKey)
               | HunkHeader(key: RowKey, text: string)
               | Line(row: LineRow)
               | Placeholder(key: RowKey, kind: PlaceholderKind)
               | Collapsed(key: RowKey, gap: CollapsedGap, caption: GapCaption)
               | Note(key: RowKey, card: NoteCard)
  {
    function Key(): RowKey { if Line? then row.key else key }

    predicate IsSelectable() { CompactedFile? || Line? }
  }

  datatype RowPlan = RowPlan(rows: seq<Row>, hunkAnchors: seq<RowKey>, digits: nat)

  // ---- Gap rows ---------------------------------------------------------------------------

  function SourceSide(context: Option<FileContext>): Side {
    if context.Some? && context.value.source.Some? && context.value.source.value.Ok?
    then context.value.source.value.value.side else New
  }

  /** The lines shown under a gap, if it is expanded and its source could be read; and its caption. */
  function Expansion(context: Option<FileContext>, gap: CollapsedGap): (seq<ContextLine>, GapCaption) {
    var count := gap.LineCount(SourceSide(context));
    if context.None? || gap.key !in context.value.expanded then ([], Unchanged(count))
    else match context.value.source
      case None => ([], Loading(count))
      case Some(Err(failure)) => ([], Failed(count, failure))
      case Some(Ok(source)) =>
        match ExpandGapLines(gap, source.text, source.side)
        case Ok(lines) => (lines, Hide(count))
        case Err(failure) => ([], Failed(count, failure))
  }

  function ExpandedCell(line: ContextLine): ReviewCell {
    ReviewCell(ContextCell, Some(line.oldLine), Some(line.newLine), PlainText(line.text))
  }

  function ExpandedRow(fileId: string, layout: Layout, hunk: nat, line: ContextLine): Row {
    var cell := ExpandedCell(line);
    var key := DiffKey(fileId, hunk, ExpandedKind, cell.oldLine, cell.newLine);
    Line(if layout == SplitLayout then Split(key, cell, cell) else Stack(key, cell))
  }

  function ExpandedRows(fileId: string, layout: Layout, hunk: nat, lines: seq<ContextLine>, n: nat): seq<Row>
    requires n <= |lines|
  {
    if n == 0 then []
    else ExpandedRows(fileId, layout, hunk, lines, n - 1) + [ExpandedRow(fileId, layout, hunk, lines[n - 1])]
  }

  function GapRows(fileId: string, layout: Layout, context: Option<FileContext>, gap: CollapsedGap): seq<Row> {
    var (lines, caption) := Expansion(context, gap);
    var hunk := gap.key.hunkIndex;
    [Collapsed(DiffKey(fileId, hunk, CollapsedKind, Some(gap.oldRange.start), Some(gap.newRange.start)), gap, caption)]
    + ExpandedRows(fileId, layout, hunk, lines, |lines|)
  }

  method AppendGapRows(fileId: string, layout: Layout, context: Option<FileContext>, gap: CollapsedGap,
                       before: seq<Row>)
    returns (rows: seq<Row>)
    ensures rows == before + GapRows(fileId, layout, context, gap)
  {
    hide Expansion, ExpandedRow;
    var (lines, caption) := Expansion(context, gap);
    var hunk := gap.key.hunkIndex;
    var key := DiffKey(fileId, hunk, CollapsedKind, Some(gap.oldRange.start), Some(gap.newRange.start));
    rows := before + [Collapsed(key, gap, caption)];
    ghost var start := rows;
    for i := 0 to |lines|
      invariant rows == start + ExpandedRows(fileId, layout, hunk, lines, i)
    {
      rows := rows + [ExpandedRow(fileId, layout, hunk, lines[i])];
    }
  }

  // ---- The plan without notes -------------------------------------------------------------

  function Lift(rows: seq<LineRow>): (lifted: seq<Row>)
    ensures |lifted| == |rows|
  {
    seq(|rows|, i requires 0 <= i < |rows| => Line(rows[i]))
  }

  function OptionalGapRows(fileId: string, layout: Layout, context: Option<FileContext>,
                           gap: Option<CollapsedGap>): seq<Row> {
    if gap.Some? then GapRows(fileId, layout, context, gap.value) else []
  }

  function HeaderRows(file: DiffFile, headers: bool, k: nat): seq<Row>
    requires k < |file.hunks|
  {
    if headers
    then [HunkHeader(DiffKey(file.id, k, HeaderKind, None, None), SanitizeLine(file.hunks[k].header))] else []
  }

  /** The rows of the first n hunks, each after the gap in front of it. */
  function HunkSections(file: DiffFile, layout: Layout, headers: bool, diff: Differ,
                        context: Option<FileContext>, gaps: seq<CollapsedGap>, n: nat): seq<Row>
    requires n <= |file.hunks|
  {
    if n == 0 then [] else
      HunkSections(file, layout, headers, diff, context, gaps, n - 1)
      + OptionalGapRows(file.id, layout, context, FindBefore(gaps, n - 1))
      + HeaderRows(file, headers, n - 1)
      + Lift(HunkRows(layout, diff, file.id, n - 1, file.hunks[n - 1].lines))
  }

  /** The first line row of each hunk that has one. */
  function Anchors(file: DiffFile, layout: Layout, diff: Differ, n: nat): seq<RowKey>
    requires n <= |file.hunks|
  {
    if n == 0 then [] else
      var rows := HunkRows(layout, diff, file.id, n - 1, file.hunks[n - 1].lines);
      Anchors(file, layout, diff, n - 1) + (if rows == [] then [] else [rows[0].key])
  }

  function PlanRows(file: DiffFile, layout: Layout, headers: bool, diff: Differ,
                    context: Option<FileContext>): seq<Row> {
    var gaps := GapsOf(file, context);
    HunkSections(file, layout, headers, diff, context, gaps, |file.hunks|)
    + OptionalGapRows(file.id, layout, context, FindTrailing(gaps))
  }

  function PlaceholderPlan(file: DiffFile): RowPlan {
    var kind := if file.isBinary then Binary else if file.isTooLarge then FileTooLarge else NoTextChanges;
    RowPlan([Placeholder(RowKey(file.id, None, PlaceholderKind, None, None, None), kind)], [], 1)
  }

  function CompactedPlan(file: DiffFile): RowPlan {
    RowPlan([CompactedFile(RowKey(file.id, None, CompactedKind, None, None, None))], [], 1)
  }

  function LargestNumber(lines: seq<DiffLine>): nat {
    if lines == [] then 0 else
      var last := lines[|lines| - 1];
      Max(LargestNumber(lines[..|lines| - 1]),
          Max(if last.oldLine.Some? then last.oldLine.value else 0, if last.newLine.Some? then last.newLine.value
            else 0))
  }

  function LargestInHunks(hunks: seq<Hunk>): nat {
    if hunks == [] then 0 else Max(LargestInHunks(hunks[..|hunks| - 1]), LargestNumber(hunks[|hunks| - 1].lines))
  }

  function DecimalDigits(n: nat): nat { if n < 10 then 1 else 1 + DecimalDigits(n / 10) }

  function PlanWithContext(file: DiffFile, layout: Layout, headers: bool, diff: Differ,
                           context: Option<FileContext>): RowPlan {
    if file.hunks == [] then PlaceholderPlan(file)
    else RowPlan(PlanRows(file, layout, headers, diff, context), Anchors(file, layout, diff, |file.hunks|),
                 DecimalDigits(LargestInHunks(file.hunks)))
  }

  method BuildLineRows(file: DiffFile, layout: Layout, diff: Differ, k: nat) returns (rows: seq<LineRow>)
    requires k < |file.hunks|
    ensures rows == HunkRows(layout, diff, file.id, k, file.hunks[k].lines)
  {
    if layout == SplitLayout {
      rows := BuildSplitRows(diff, file.id, k, file.hunks[k].lines);
    } else {
      rows := BuildStackRows(diff, file.id, k, file.hunks[k].lines);
    }
  }

  method AppendHunkSection(file: DiffFile, layout: Layout, headers: bool, diff: Differ, context: Option<FileContext>,
                           gaps: seq<CollapsedGap>, k: nat, before: seq<Row>)
    returns (rows: seq<Row>, lineRows: seq<LineRow>)
    requires k < |file.hunks|
    ensures lineRows == HunkRows(layout, diff, file.id, k, file.hunks[k].lines)
    ensures rows == before + OptionalGapRows(file.id, layout, context, FindBefore(gaps, k))
                  + HeaderRows(file, headers, k) + Lift(lineRows)
  {
    hide GapRows, HunkRows, SanitizeLine, FindBefore;
    rows := before;
    var gap := FindBefore(gaps, k);
    if gap.Some? {
      rows := AppendGapRows(file.id, layout, context, gap.value, rows);
    }
    rows := rows + HeaderRows(file, headers, k);
    lineRows := BuildLineRows(file, layout, diff, k);
    rows := rows + Lift(lineRows);
  }

  method BuildRowPlanWithContext(file: DiffFile, layout: Layout, headers: bool, diff: Differ,
                                 context: Option<FileContext>)
    returns (plan: RowPlan)
    ensures plan == PlanWithContext(file, layout, headers, diff, context)
  {
    hide OptionalGapRows, HunkRows, HeaderRows, FindBefore, FindTrailing, CollapsedGaps, LargestInHunks, Lift,
      SourceLength;
    if file.hunks == [] {
      return PlaceholderPlan(file);
    }
    var rows, anchors := [], [];
    var gaps := DeriveCollapsedGaps(file, if context.Some? then SourceLength(context.value) else None);
    for k := 0 to |file.hunks|
      invariant rows == HunkSections(file, layout, headers, diff, context, gaps, k)
      invariant anchors == Anchors(file, layout, diff, k)
    {
      var lineRows;
      rows, lineRows := AppendHunkSection(file, layout, headers, diff, context, gaps, k, rows);
      if lineRows != [] {
        anchors := anchors + [lineRows[0].key];
      }
    }
    rows := AppendTrailingGap(file, layout, context, gaps, rows);
    plan := RowPlan(rows, anchors, DecimalDigits(LargestInHunks(file.hunks)));
  }

  method AppendTrailingGap(file: DiffFile, layout: Layout, context: Option<FileContext>, gaps: seq<CollapsedGap>,
                           before: seq<Row>)
    returns (rows: seq<Row>)
    ensures rows == before + OptionalGapRows(file.id, layout, context, FindTrailing(gaps))
  {
    rows := before;
    var gap := FindTrailing(gaps);
    if gap.Some? {
      rows := AppendGapRows(file.id, layout, context, gap.value, rows);
    }
  }
}
