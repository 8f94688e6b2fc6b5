/** Row keys name rows: in a plan, and in the whole laid-out document, no two rows have the same key. */
module RowKeys {
  import opened Text
  import opened DiffModel
  import opened Emphasis
  import opened Context
  import opened Rows
  import opened Plan
  import opened Notes
  import opened Geometry
  import opened GeometryProofs
  import opened Anchor
  import opened ControllerModel
  import opened ControllerProofs

  ghost predicate DistinctRows(rows: seq<Row>) {
    forall i, j :: 0 <= i < j < |rows| ==> rows[i].Key() != rows[j].Key()
  }

  ghost predicate Apart(a: seq<Row>, b: seq<Row>) {
    forall i, j :: 0 <= i < |a| && 0 <= j < |b| ==> a[i].Key() != b[j].Key()
  }

  lemma JoinDistinct(a: seq<Row>, b: seq<Row>)
    requires DistinctRows(a) && DistinctRows(b) && Apart(a, b)
    ensures DistinctRows(a + b)
  {
  }

  // ---- Rows of a hunk ---------------------------------------------------------------------

  /** A line has a number on exactly the sides it is on. */
  predicate Sided(line: DiffLine) {
    && (line.oldLine.Some? <==> OnSide(line.kind, Old))
    && (line.newLine.Some? <==> OnSide(line.kind, New))
  }

  /** Numbers grow along one side. */
  ghost predicate Growing(lines: seq<DiffLine>, side: Side) {
    forall i, j :: 0 <= i < j < |lines| && NumberOn(lines[i], side).Some? && NumberOn(lines[j], side).Some? ==>
      NumberOn(lines[i], side).value < NumberOn(lines[j], side).value
  }

  /** The lines of a hunk are numbered as a diff numbers them. */
  ghost predicate WellNumbered(lines: seq<DiffLine>) {
    && (forall i :: 0 <= i < |lines| ==> Sided(lines[i]))
    && Growing(SideLines(lines, Old), Old) && Growing(SideLines(lines, New), New)
  }

  /** Numbered as any diff parser numbers a file. */
  ghost predicate FileNumbered(file: DiffFile) {
    forall k :: 0 <= k < |file.hunks| ==> WellNumbered(file.hunks[k].lines)
  }

  ghost predicate DiffsNumbered(files: seq<DiffFile>) { forall i :: 0 <= i < |files| ==> FileNumbered(files[i]) }

  function NumberIn(cells: seq<ReviewCell>, side: Side): Option<nat> {
    if cells == [] then None else if side == Old then cells[0].oldLine else cells[0].newLine
  }

  /** A row is named by the numbers of the cells it shows, and shows at least one. */
  predicate Keyed(row: LineRow, fileId: string, hunk: nat) {
    && row.key == DiffKey(fileId, hunk, LineKindRow, NumberIn(RowCells(row, Old), Old),
         NumberIn(RowCells(row, New), New))
    && (RowCells(row, Old) != [] || RowCells(row, New) != [])
  }

  ghost predicate AllKeyed(rows: seq<LineRow>, fileId: string, hunk: nat) {
    forall i :: 0 <= i < |rows| ==> Keyed(rows[i], fileId, hunk)
  }

  lemma PairRowIsKeyed(diff: Differ, fileId: string, hunk: nat, dels: seq<DiffLine>, adds: seq<DiffLine>, i: nat)
    requires AllKind(dels, Deletion) && AllKind(adds, Addition) && (i < |dels| || i < |adds|)
    ensures Keyed(PairRow(diff, fileId, hunk, dels, adds, i), fileId, hunk)
  {
    hide PairSpans;
  }

  lemma {:induction false} PairRowsAreKeyed(diff: Differ, fileId: string, hunk: nat, dels: seq<DiffLine>,
                                            adds: seq<DiffLine>, n: nat)
    requires AllKind(dels, Deletion) && AllKind(adds, Addition) && n <= Max(|dels|, |adds|)
    ensures AllKeyed(PairRows(diff, fileId, hunk, dels, adds, n), fileId, hunk)
  {
    hide PairRow, Keyed, PairRows, AllKind, Max;
    if n == 0 {
      NoPairRows(diff, fileId, hunk, dels, adds);
    } else {
      PairRowsAreKeyed(diff, fileId, hunk, dels, adds, n - 1);
      SomeLineLeft(dels, adds, n);
      PairRowIsKeyed(diff, fileId, hunk, dels, adds, n - 1);
      PairRowsPush(diff, fileId, hunk, dels, adds, n);
    }
  }

  lemma SomeLineLeft(dels: seq<DiffLine>, adds: seq<DiffLine>, n: nat)
    requires 0 < n <= Max(|dels|, |adds|)
    ensures n - 1 <= Max(|dels|, |adds|) && (n - 1 < |dels| || n - 1 < |adds|)
  {
  }

  lemma ContextIsKeyed(fileId: string, hunk: nat, line: DiffLine)
    requires line.kind == Context
    ensures Keyed(ContextRow(fileId, hunk, line), fileId, hunk)
  {
    hide PlainText, Sanitize.SanitizeLine;
  }

  lemma StackIsKeyed(fileId: string, hunk: nat, line: DiffLine, spans: seq<Span>)
    requires Sided(line)
    ensures Keyed(StackRow(fileId, hunk, line, spans), fileId, hunk)
  {
  }

  lemma {:induction false} SplitRowsAreKeyed(diff: Differ, fileId: string, hunk: nat, lines: seq<DiffLine>, at: nat)
    requires at <= |lines|
    ensures AllKeyed(SplitRows(diff, fileId, hunk, lines, at), fileId, hunk)
    decreases |lines| - at
  {
    hide PairRows, ContextRow, Keyed, SplitRows;
    NoSplitRows(diff, fileId, hunk, lines);
    if at < |lines| {
      SplitRowsFrom(diff, fileId, hunk, lines, at);
      if lines[at].kind == Context {
        ContextIsKeyed(fileId, hunk, lines[at]);
        SplitRowsAreKeyed(diff, fileId, hunk, lines, at + 1);
      } else {
        var end := BlockEnd(lines, at + 1);
        var block := lines[at..end];
        BlockSides(block);
        var dels, adds := SideLines(block, Old), SideLines(block, New);
        PairRowsAreKeyed(diff, fileId, hunk, dels, adds, Max(|dels|, |adds|));
        SplitRowsAreKeyed(diff, fileId, hunk, lines, end);
      }
    }
  }

  lemma {:induction false} BlockStackIsKeyed(diff: Differ, fileId: string, hunk: nat, block: seq<DiffLine>, n: nat)
    requires n <= |block| && forall i :: 0 <= i < |block| ==> Sided(block[i])
    ensures AllKeyed(BlockStackRows(diff, fileId, hunk, block, n), fileId, hunk)
  {
    hide BlockSpans, Keyed, StackRow, Sided, BlockStackRows;
    if n == 0 {
      NoBlockRows(diff, fileId, hunk, block, Old);
    } else {
      BlockStackIsKeyed(diff, fileId, hunk, block, n - 1);
      BlockStackPush(diff, fileId, hunk, block, n);
      StackIsKeyed(fileId, hunk, block[n - 1], BlockSpans(diff, block, n - 1));
    }
  }

  lemma {:induction false} StackRowsAreKeyed(diff: Differ, fileId: string, hunk: nat, lines: seq<DiffLine>, at: nat)
    requires at <= |lines| && forall i :: 0 <= i < |lines| ==> Sided(lines[i])
    ensures AllKeyed(StackRows(diff, fileId, hunk, lines, at), fileId, hunk)
    decreases |lines| - at
  {
    hide BlockStackRows, StackRow, Keyed, StackRows, Sided, PlainText, Sanitize.SanitizeLine;
    NoStackRows(diff, fileId, hunk, lines);
    if at < |lines| {
      StackRowsFrom(diff, fileId, hunk, lines, at);
      if lines[at].kind == Context {
        StackIsKeyed(fileId, hunk, lines[at], PlainText(Sanitize.SanitizeLine(lines[at].content)));
        StackRowsAreKeyed(diff, fileId, hunk, lines, at + 1);
      } else {
        var end := BlockEnd(lines, at + 1);
        BlockStackIsKeyed(diff, fileId, hunk, lines[at..end], end - at);
        StackRowsAreKeyed(diff, fileId, hunk, lines, end);
      }
    }
  }

  /** Cells of one side all have numbers there, and these grow. */
  ghost predicate CellsGrow(cells: seq<ReviewCell>, side: Side) {
    && (forall i :: 0 <= i < |cells| ==> NumberIn([cells[i]], side).Some?)
    && (forall i, j :: 0 <= i < j < |cells| ==> NumberIn([cells[i]], side).value < NumberIn([cells[j]], side).value)
  }

  lemma HunkCellsGrow(layout: Layout, diff: Differ, fileId: string, hunk: nat, lines: seq<DiffLine>, side: Side)
    requires SoundDiffer(diff) && WellNumbered(lines)
    ensures CellsGrow(SideCells(HunkRows(layout, diff, fileId, hunk, lines), side), side)
  {
    hide HunkRows, SideCells, SideLines, SpansText, Sanitize.SanitizeLine;
    LayoutsAgree(layout, diff, fileId, hunk, lines, side);
    var cells, shown := SideCells(HunkRows(layout, diff, fileId, hunk, lines), side), SideLines(lines, side);
    forall i | 0 <= i < |shown|
      ensures NumberOn(shown[i], side).Some? && NumberIn([cells[i]], side) == NumberOn(shown[i], side) {
      SideLineIsLine(lines, side, shown[i]);
      assert Shows(cells[i], shown[i]);
    }
  }

  /** Two rows that both show a side show different numbers there. */
  lemma {:induction false} NumbersDiffer(rows: seq<LineRow>, side: Side, i: nat, j: nat)
    requires i < j < |rows| && CellsGrow(SideCells(rows, side), side)
    requires RowCells(rows[i], side) != [] && RowCells(rows[j], side) != []
    ensures NumberIn(RowCells(rows[i], side), side) != NumberIn(RowCells(rows[j], side), side)
  {
    hide RowCells;
    var front := rows[..|rows| - 1];
    if j < |rows| - 1 {
      assert forall k :: 0 <= k < |SideCells(front, side)| ==> SideCells(rows, side)[k] == SideCells(front, side)[k];
      NumbersDiffer(front, side, i, j);
    } else {
      var cell := RowCells(rows[i], side)[0];
      CellIsAmong(front, side, i, cell);
      var k :| 0 <= k < |SideCells(front, side)| && SideCells(front, side)[k] == cell;
      assert SideCells(rows, side)[k] == cell;
      assert SideCells(rows, side)[|SideCells(front, side)|] == RowCells(rows[j], side)[0];
    }
  }

  lemma {:induction false} NumberThere(rows: seq<LineRow>, side: Side, i: nat)
    requires i < |rows| && CellsGrow(SideCells(rows, side), side) && RowCells(rows[i], side) != []
    ensures NumberIn(RowCells(rows[i], side), side).Some?
  {
    hide RowCells;
    CellIsAmong(rows, side, i, RowCells(rows[i], side)[0]);
  }

  ghost predicate OfHunk(rows: seq<Row>, fileId: string, hunk: nat, kinds: set<RowKind>) {
    forall i :: 0 <= i < |rows| ==>
      !rows[i].Note? && rows[i].Key().fileId == fileId && rows[i].Key().hunkIndex == Some(hunk)
        && rows[i].Key().kind in kinds
  }

  /** No two rows of a hunk have the same key. */
  lemma HunkRowsAreDistinct(layout: Layout, diff: Differ, fileId: string, hunk: nat, lines: seq<DiffLine>)
    requires SoundDiffer(diff) && WellNumbered(lines)
    ensures var rows := Lift(HunkRows(layout, diff, fileId, hunk, lines));
      DistinctRows(rows) && OfHunk(rows, fileId, hunk, {LineKindRow})
  {
    hide SplitRows, StackRows, SideCells, RowCells, Sided, CellsGrow, SoundDiffer;
    var rows := HunkRows(layout, diff, fileId, hunk, lines);
    SplitRowsAreKeyed(diff, fileId, hunk, lines, 0);
    StackRowsAreKeyed(diff, fileId, hunk, lines, 0);
    HunkCellsGrow(layout, diff, fileId, hunk, lines, Old);
    HunkCellsGrow(layout, diff, fileId, hunk, lines, New);
    hide HunkRows, WellNumbered;
    forall i, j | 0 <= i < j < |rows| ensures rows[i].key != rows[j].key {
      assert Keyed(rows[i], fileId, hunk) && Keyed(rows[j], fileId, hunk);
      var side := if RowCells(rows[i], Old) != [] then Old else New;
      NumberThere(rows, side, i);
      if RowCells(rows[j], side) != [] { NumbersDiffer(rows, side, i, j); }
    }
    forall i | 0 <= i < |rows| ensures Keyed(rows[i], fileId, hunk) {}
  }

  // ---- Rows of a gap ----------------------------------------------------------------------

  /** A gap's ranges are equally long. */
  predicate Even(gap: CollapsedGap) {
    && gap.oldRange.start <= gap.oldRange.end && gap.newRange.start <= gap.newRange.end
    && gap.oldRange.end - gap.oldRange.start == gap.newRange.end - gap.newRange.start
  }

  ghost predicate NewLinesWithin(rows: seq<Row>, lo: nat, hi: nat) {
    forall i :: 0 <= i < |rows| ==> rows[i].Key().newLine.Some? && lo <= rows[i].Key().newLine.value <= hi
  }

  lemma {:induction false} ExpandedKeys(fileId: string, layout: Layout, hunk: nat, lines: seq<ContextLine>, n: nat,
                                        start: nat)
    requires n <= |lines| && forall i :: 0 <= i < |lines| ==> lines[i].newLine == start + i
    ensures var rows := ExpandedRows(fileId, layout, hunk, lines, n);
      && |rows| == n && OfHunk(rows, fileId, hunk, {ExpandedKind})
      && forall i :: 0 <= i < n ==> rows[i].Key().newLine == Some(start + i)
  {
    hide PlainText;
    if n > 0 { ExpandedKeys(fileId, layout, hunk, lines, n - 1, start); }
  }

  lemma ExpansionIs(context: Option<FileContext>, gap: CollapsedGap)
    requires Even(gap)
    ensures var lines := Expansion(context, gap).0;
      && |lines| <= gap.newRange.end - gap.newRange.start + 1
      && forall i :: 0 <= i < |lines| ==> lines[i].newLine == gap.newRange.start + i
  {
    hide Context.SourceLines;
  }

  lemma GapRowsAreDistinct(fileId: string, layout: Layout, context: Option<FileContext>, gap: CollapsedGap)
    requires Even(gap)
    ensures var rows := GapRows(fileId, layout, context, gap);
      && DistinctRows(rows) && OfHunk(rows, fileId, gap.key.hunkIndex, {CollapsedKind, ExpandedKind})
      && NewLinesWithin(rows, gap.newRange.start, gap.newRange.end)
  {
    hide Expansion, ExpandedRows;
    ExpansionIs(context, gap);
    var lines := Expansion(context, gap).0;
    ExpandedKeys(fileId, layout, gap.key.hunkIndex, lines, |lines|, gap.newRange.start);
  }

  // ---- Rows of a file ---------------------------------------------------------------------

  /** Rows of the first hunks: none is a note, and gap rows lie above the cursor. */
  ghost predicate OfHunks(rows: seq<Row>, fileId: string, n: nat, cursor: nat) {
    forall i :: 0 <= i < |rows| ==>
      && !rows[i].Note? && rows[i].Key().fileId == fileId && rows[i].Key().kind != NoteKind
      && rows[i].Key().hunkIndex.Some? && rows[i].Key().hunkIndex.value < n
      && (rows[i].Key().kind in {CollapsedKind, ExpandedKind} ==>
            rows[i].Key().newLine.Some? && rows[i].Key().newLine.value < cursor)
  }

  lemma GapBeforeIs(fileId: string, hunks: seq<Hunk>, k: nat)
    requires k < |hunks| && GapBefore(fileId, hunks, k).Some?
    ensures var gap := GapBefore(fileId, hunks, k).value;
      Even(gap) && gap.key.hunkIndex == k && gap.newRange.end < CursorsAfter(hunks[..k + 1]).newLine
  {
    hide CursorsAfter, SideLines;
    CursorStep(hunks, k);
  }

  lemma CursorsOnlyGrow(hunks: seq<Hunk>, k: nat)
    requires k < |hunks|
    ensures CursorsAfter(hunks[..k]).newLine <= CursorsAfter(hunks[..k + 1]).newLine
  {
    hide CursorsAfter, SideLines;
    CursorStep(hunks, k);
  }

  /** The rows of one hunk and of the gap in front of it. */
  lemma SectionIsDistinct(file: DiffFile, layout: Layout, headers: bool, diff: Differ, context: Option<FileContext>,
                          k: nat)
    requires k < |file.hunks| && SoundDiffer(diff) && WellNumbered(file.hunks[k].lines)
    ensures var rows := OptionalGapRows(file.id, layout, context, GapBefore(file.id, file.hunks, k))
        + HeaderRows(file, headers, k) + Lift(HunkRows(layout, diff, file.id, k, file.hunks[k].lines));
      DistinctRows(rows) && OfHunk(rows, file.id, k, {CollapsedKind, ExpandedKind, HeaderKind, LineKindRow})
      && OfHunks(rows, file.id, k + 1, CursorsAfter(file.hunks[..k + 1]).newLine)
  {
    hide GapRows, HunkRows, CursorsAfter, WellNumbered, SoundDiffer, Sanitize.SanitizeLine, GapBefore;
    var gap := GapBefore(file.id, file.hunks, k);
    if gap.Some? {
      GapBeforeIs(file.id, file.hunks, k);
      GapRowsAreDistinct(file.id, layout, context, gap.value);
    }
    HunkRowsAreDistinct(layout, diff, file.id, k, file.hunks[k].lines);
    var a, b, c := OptionalGapRows(file.id, layout, context, gap), HeaderRows(file, headers, k),
      Lift(HunkRows(layout, diff, file.id, k, file.hunks[k].lines));
    JoinParts(a, b, c, file.id, k, CursorsAfter(file.hunks[..k + 1]).newLine);
  }

  lemma JoinParts(a: seq<Row>, b: seq<Row>, c: seq<Row>, fileId: string, k: nat, cursor: nat)
    requires DistinctRows(a) && OfHunk(a, fileId, k, {CollapsedKind, ExpandedKind}) && OfHunks(a, fileId, k + 1, cursor)
    requires DistinctRows(b) && OfHunk(b, fileId, k, {HeaderKind})
    requires DistinctRows(c) && OfHunk(c, fileId, k, {LineKindRow})
    ensures DistinctRows(a + b + c) && OfHunks(a + b + c, fileId, k + 1, cursor)
    ensures OfHunk(a + b + c, fileId, k, {CollapsedKind, ExpandedKind, HeaderKind, LineKindRow})
  {
    JoinDistinct(a, b);
    JoinDistinct(a + b, c);
  }

  lemma JoinSection(before: seq<Row>, section: seq<Row>, fileId: string, k: nat, cursor: nat, next: nat)
    requires DistinctRows(before) && OfHunks(before, fileId, k, cursor)
    requires DistinctRows(section) && OfHunk(section, fileId, k, {CollapsedKind, ExpandedKind, HeaderKind, LineKindRow})
    requires OfHunks(section, fileId, k + 1, next) && cursor <= next
    ensures DistinctRows(before + section) && OfHunks(before + section, fileId, k + 1, next)
  {
    JoinDistinct(before, section);
  }

  lemma SectionsStep(file: DiffFile, layout: Layout, headers: bool, diff: Differ, context: Option<FileContext>, k: nat)
    requires k < |file.hunks|
    ensures HunkSections(file, layout, headers, diff, context, GapsOf(file, context), k + 1) ==
      HunkSections(file, layout, headers, diff, context, GapsOf(file, context), k)
      + (OptionalGapRows(file.id, layout, context, GapBefore(file.id, file.hunks, k))
         + HeaderRows(file, headers, k) + Lift(HunkRows(layout, diff, file.id, k, file.hunks[k].lines)))
  {
    hide OptionalGapRows, HunkRows, HeaderRows, Lift, GapsOf, FindBefore, GapBefore;
    FoundBefore(file, context, k);
    var before := HunkSections(file, layout, headers, diff, context, GapsOf(file, context), k);
    var a := OptionalGapRows(file.id, layout, context, GapBefore(file.id, file.hunks, k));
    var b, c := HeaderRows(file, headers, k), Lift(HunkRows(layout, diff, file.id, k, file.hunks[k].lines));
    assert before + a + b + c == before + (a + b + c);
  }

  lemma HunkNumbered(file: DiffFile, k: nat)
    requires k < |file.hunks| && FileNumbered(file)
    ensures WellNumbered(file.hunks[k].lines)
  {
  }

  lemma NoSections(file: DiffFile, layout: Layout, headers: bool, diff: Differ, context: Option<FileContext>,
                   cursor: nat)
    ensures var rows := HunkSections(file, layout, headers, diff, context, GapsOf(file, context), 0);
      DistinctRows(rows) && OfHunks(rows, file.id, 0, cursor)
  {
  }

  lemma {:induction false} SectionsAreDistinct(file: DiffFile, layout: Layout, headers: bool, diff: Differ,
                                               context: Option<FileContext>, n: nat)
    requires n <= |file.hunks| && SoundDiffer(diff) && FileNumbered(file)
    ensures var rows := HunkSections(file, layout, headers, diff, context, GapsOf(file, context), n);
      DistinctRows(rows) && OfHunks(rows, file.id, n, CursorsAfter(file.hunks[..n]).newLine)
  {
    hide *;
    if n == 0 {
      NoSections(file, layout, headers, diff, context, CursorsAfter(file.hunks[..0]).newLine);
    } else {
      var k := n - 1;
      SectionsAreDistinct(file, layout, headers, diff, context, k);
      SectionsStep(file, layout, headers, diff, context, k);
      HunkNumbered(file, k);
      SectionIsDistinct(file, layout, headers, diff, context, k);
      CursorsOnlyGrow(file.hunks, k);
      JoinSection(HunkSections(file, layout, headers, diff, context, GapsOf(file, context), k),
        OptionalGapRows(file.id, layout, context, GapBefore(file.id, file.hunks, k))
          + HeaderRows(file, headers, k) + Lift(HunkRows(layout, diff, file.id, k, file.hunks[k].lines)),
        file.id, k, CursorsAfter(file.hunks[..k]).newLine, CursorsAfter(file.hunks[..n]).newLine);
    }
  }

  lemma TrailingIs(file: DiffFile, context: Option<FileContext>)
    requires file.hunks != [] && FindTrailing(GapsOf(file, context)).Some?
    ensures var gap := FindTrailing(GapsOf(file, context)).value;
      Even(gap) && gap.key.hunkIndex == |file.hunks| - 1 && CursorsAfter(file.hunks).newLine == gap.newRange.start
  {
    hide CollapsedGaps, CursorsAfter;
    FindInCollapsed(file.id, file.hunks, if context.Some? then SourceLength(context.value) else None, 0);
  }

  ghost predicate OfFile(rows: seq<Row>, fileId: string) {
    forall i :: 0 <= i < |rows| ==> !rows[i].Note? && rows[i].Key().fileId == fileId && rows[i].Key().kind != NoteKind
  }

  /** No two rows of a file's plan have the same key, whatever is expanded in it. */
  lemma PlanIsDistinct(file: DiffFile, layout: Layout, headers: bool, diff: Differ, context: Option<FileContext>)
    requires SoundDiffer(diff) && FileNumbered(file)
    ensures var rows := PlanWithContext(file, layout, headers, diff, context).rows;
      DistinctRows(rows) && OfFile(rows, file.id)
  {
    hide HunkSections, GapRows, CursorsAfter, GapsOf, WellNumbered, SoundDiffer, FindTrailing, Anchors, LargestInHunks;
    if file.hunks != [] {
      var sections := HunkSections(file, layout, headers, diff, context, GapsOf(file, context), |file.hunks|);
      SectionsAreDistinct(file, layout, headers, diff, context, |file.hunks|);
      assert file.hunks[..|file.hunks|] == file.hunks;
      var gap := FindTrailing(GapsOf(file, context));
      if gap.Some? {
        TrailingIs(file, context);
        GapRowsAreDistinct(file.id, layout, context, gap.value);
        JoinDistinct(sections, GapRows(file.id, layout, context, gap.value));
      }
    }
  }

  // ---- With notes -------------------------------------------------------------------------

  /** Note rows are named by their card, and no other row has a note's kind. */
  predicate NoteShaped(row: Row) {
    if row.Note? then row.Key().kind == NoteKind && row.Key().noteId == Some(row.card.id)
      else row.Key().kind != NoteKind
  }

  ghost predicate AllNoteShaped(rows: seq<Row>) { forall i :: 0 <= i < |rows| ==> NoteShaped(rows[i]) }

  ghost predicate DistinctCards(cards: seq<NoteCard>) {
    forall i, j :: 0 <= i < j < |cards| ==> cards[i].id != cards[j].id
  }

  lemma {:induction false} Shown(rows: seq<Row>, i: nat)
    requires i < |rows|
    ensures if rows[i].Note? then rows[i].card in ShownCards(rows) else rows[i] in WithoutNotes(rows)
  {
    if i < |rows| - 1 { Shown(rows[..|rows| - 1], i); }
  }

  lemma {:induction false} ShapedRowsAreDistinct(rows: seq<Row>)
    requires AllNoteShaped(rows) && DistinctRows(WithoutNotes(rows)) && DistinctCards(ShownCards(rows))
    ensures DistinctRows(rows)
  {
    if rows != [] {
      var front, last := rows[..|rows| - 1], rows[|rows| - 1];
      assert rows == front + [last];
      NotesPush(front, last);
      hide WithoutNotes, ShownCards;
      assert forall i :: 0 <= i < |WithoutNotes(front)| ==> WithoutNotes(rows)[i] == WithoutNotes(front)[i];
      assert forall i :: 0 <= i < |ShownCards(front)| ==> ShownCards(rows)[i] == ShownCards(front)[i];
      ShapedRowsAreDistinct(front);
      forall i | 0 <= i < |front| ensures front[i].Key() != last.Key() { LastDiffers(front, last, i); }
    }
  }

  lemma LastDiffers(front: seq<Row>, last: Row, i: nat)
    requires i < |front| && NoteShaped(front[i]) && NoteShaped(last)
    requires DistinctRows(WithoutNotes(front + [last])) && DistinctCards(ShownCards(front + [last]))
    ensures front[i].Key() != last.Key()
  {
    hide WithoutNotes, ShownCards;
    NotesPush(front, last);
    Shown(front, i);
    if front[i].Note? && last.Note? {
      LastCardDiffers(ShownCards(front), last.card, front[i].card);
    } else if !front[i].Note? && !last.Note? {
      LastRowDiffers(WithoutNotes(front), last, front[i]);
    }
  }

  lemma LastCardDiffers(cards: seq<NoteCard>, last: NoteCard, card: NoteCard)
    requires DistinctCards(cards + [last]) && card in cards
    ensures card.id != last.id
  {
    var k :| 0 <= k < |cards| && cards[k] == card;
    assert (cards + [last])[k] == card && (cards + [last])[|cards|] == last;
  }

  lemma LastRowDiffers(rows: seq<Row>, last: Row, row: Row)
    requires DistinctRows(rows + [last]) && row in rows
    ensures row.Key() != last.Key()
  {
    var k :| 0 <= k < |rows| && rows[k] == row;
    assert (rows + [last])[k] == row && (rows + [last])[|rows|] == last;
  }

  ghost predicate InFile(rows: seq<Row>, fileId: string) {
    forall i :: 0 <= i < |rows| ==> rows[i].Key().fileId == fileId
  }

  lemma {:induction false} NoteRowsAreShaped(fileId: string, cards: seq<NoteCard>)
    ensures AllNoteShaped(NoteRows(fileId, cards)) && InFile(NoteRows(fileId, cards), fileId)
  {
    if cards != [] { NoteRowsAreShaped(fileId, cards[..|cards| - 1]); }
  }

  lemma {:induction false} WovenIsShaped(fileId: string, rows: seq<Row>, cards: seq<NoteCard>, n: nat)
    requires n <= |rows| && OfFile(rows, fileId)
    ensures AllNoteShaped(Woven(fileId, rows, cards, n)) && InFile(Woven(fileId, rows, cards, n), fileId)
  {
    if n > 0 {
      hide CardsAt, NoteRows;
      WovenIsShaped(fileId, rows, cards, n - 1);
      NoteRowsAreShaped(fileId, CardsAt(rows, cards, n - 1));
    }
  }

  lemma {:induction false} CountsOnce(cards: seq<NoteCard>, c: NoteCard)
    requires DistinctCards(cards)
    ensures multiset(cards)[c] <= 1
  {
    if cards != [] {
      var front, last := cards[..|cards| - 1], cards[|cards| - 1];
      assert cards == front + [last];
      CountsOnce(front, c);
      forall k | 0 <= k < |front| ensures front[k] != last {
        assert cards[k].id != cards[|cards| - 1].id;
      }
      assert multiset(cards) == multiset(front) + multiset{last};
    }
  }

  lemma CountsTwice(cards: seq<NoteCard>, i: nat, j: nat)
    requires i < j < |cards| && cards[i] == cards[j]
    ensures multiset(cards)[cards[i]] >= 2
  {
    assert cards == cards[..j] + cards[j..];
    assert cards[i] == cards[..j][i] && cards[j] == cards[j..][0];
    assert cards[i] in multiset(cards[..j]) && cards[j] in multiset(cards[j..]);
  }

  /** Reordering cards keeps their ids distinct. */
  lemma ReorderedAreDistinct(a: seq<NoteCard>, b: seq<NoteCard>)
    requires multiset(a) == multiset(b) && DistinctCards(b)
    ensures DistinctCards(a)
  {
    forall i, j | 0 <= i < j < |a| ensures a[i].id != a[j].id {
      assert a[i] in multiset(a) && a[j] in multiset(a);
      var p :| 0 <= p < |b| && b[p] == a[i];
      var q :| 0 <= q < |b| && b[q] == a[j];
      if a[i].id == a[j].id {
        assert p == q;
        CountsTwice(a, i, j);
        CountsOnce(b, a[i]);
      }
    }
  }

  lemma WovenIsDistinct(fileId: string, plan: RowPlan, fileLevel: seq<NoteCard>, cards: seq<NoteCard>)
    requires DistinctRows(plan.rows) && OfFile(plan.rows, fileId) && DistinctCards(fileLevel + cards)
    ensures var rows := WithNotes(fileId, plan, fileLevel, cards).rows;
      DistinctRows(rows) && AllNoteShaped(rows) && InFile(rows, fileId)
      && forall i :: 0 <= i < |rows| && rows[i].Note? ==> rows[i].card in fileLevel + cards
  {
    if plan.rows != [] {
      hide NoteRows, Woven, WithoutNotes, ShownCards;
      WeavingIsConservative(fileId, plan, fileLevel, cards);
      NoteRowsAreShaped(fileId, fileLevel);
      WovenIsShaped(fileId, plan.rows, cards, |plan.rows|);
      var rows := WithNotes(fileId, plan, fileLevel, cards).rows;
      assert multiset(fileLevel + cards) == multiset(fileLevel) + multiset(cards);
      ReorderedAreDistinct(ShownCards(rows), fileLevel + cards);
      ShapedRowsAreDistinct(rows);
      forall i | 0 <= i < |rows| && rows[i].Note? ensures rows[i].card in fileLevel + cards {
        Shown(rows, i);
        assert rows[i].card in multiset(ShownCards(rows));
      }
    }
  }

  // ---- A planned file ---------------------------------------------------------------------

  /** Notes and unplaced threads have ids of their own. */
  ghost predicate DistinctNotes(notes: seq<ReviewNote>, unplaced: seq<UnplacedThread>) {
    && (forall i, j :: 0 <= i < j < |notes| ==> notes[i].id != notes[j].id)
    && (forall i, j :: 0 <= i < j < |unplaced| ==> unplaced[i].id != unplaced[j].id)
    && (forall i, j :: 0 <= i < |notes| && 0 <= j < |unplaced| ==> notes[i].id != unplaced[j].id)
  }

  ghost predicate HasNote(notes: seq<ReviewNote>, id: string, fileLevel: bool) {
    exists k :: 0 <= k < |notes| && notes[k].id == id && notes[k].fileLevel == fileLevel
  }

  ghost predicate FromNotes(cards: seq<NoteCard>, notes: seq<ReviewNote>, fileLevel: bool) {
    forall i :: 0 <= i < |cards| ==> HasNote(notes, cards[i].id, fileLevel)
  }

  lemma NoteStays(notes: seq<ReviewNote>, id: string, fileLevel: bool)
    requires notes != [] && HasNote(notes[..|notes| - 1], id, fileLevel) && DistinctNotes(notes, [])
    ensures HasNote(notes, id, fileLevel) && id != notes[|notes| - 1].id
  {
    var k :| 0 <= k < |notes| - 1 && notes[..|notes| - 1][k].id == id && notes[..|notes| - 1][k].fileLevel == fileLevel;
    assert notes[k].id == id && notes[k].fileLevel == fileLevel;
  }

  lemma LastIsNote(notes: seq<ReviewNote>)
    requires notes != []
    ensures var last := notes[|notes| - 1]; HasNote(notes, last.id, last.fileLevel)
  {
  }

  lemma {:induction false} CardsAreNotes(env: Env, notes: seq<ReviewNote>, fileId: string, fileLevel: bool,
                                         agentNotes: bool, shape: Shape)
    requires DistinctNotes(notes, [])
    ensures var cards := CardsFor(env, notes, fileId, fileLevel, agentNotes, shape);
      DistinctCards(cards) && FromNotes(cards, notes, fileLevel)
  {
    if notes != [] {
      var front, last := notes[..|notes| - 1], notes[|notes| - 1];
      CardsAreNotes(env, front, fileId, fileLevel, agentNotes, shape);
      CardHasId(env, last, shape);
      LastIsNote(notes);
      hide CardOf, HasNote;
      var before := CardsFor(env, front, fileId, fileLevel, agentNotes, shape);
      forall i | 0 <= i < |before| ensures before[i].id != last.id && HasNote(notes, before[i].id, fileLevel) {
        NoteStays(notes, before[i].id, fileLevel);
      }
    }
  }

  lemma CardHasId(env: Env, note: ReviewNote, shape: Shape)
    ensures CardOf(env, note, shape).id == note.id
  {
    hide WrappedTexts;
  }

  lemma LevelsAreDistinct(top: seq<NoteCard>, below: seq<NoteCard>, notes: seq<ReviewNote>)
    requires DistinctNotes(notes, []) && DistinctCards(top) && DistinctCards(below)
    requires FromNotes(top, notes, true) && FromNotes(below, notes, false)
    ensures DistinctCards(top + below)
  {
    forall i, j | 0 <= i < |top| && 0 <= j < |below| ensures top[i].id != below[j].id {
      var p :| 0 <= p < |notes| && notes[p].id == top[i].id && notes[p].fileLevel == true;
      var q :| 0 <= q < |notes| && notes[q].id == below[j].id && notes[q].fileLevel == false;
      assert p != q;
    }
  }

  ghost predicate IsNoteId(notes: seq<ReviewNote>, id: string) { exists k :: 0 <= k < |notes| && notes[k].id == id }

  /** A file's rows: distinct keys, all of that file, notes named by their ids. */
  ghost predicate FileRowsOk(rows: seq<Row>, fileId: string, notes: seq<ReviewNote>) {
    && DistinctRows(rows) && InFile(rows, fileId) && AllNoteShaped(rows)
    && forall i :: 0 <= i < |rows| && rows[i].Note? ==> IsNoteId(notes, rows[i].card.id)
  }

  lemma PlannedIsDistinct(env: Env, inputs: Inputs, shape: Shape, file: DiffFile)
    requires SoundDiffer(env.diff) && DistinctNotes(inputs.notes, [])
    requires FileNumbered(file)
    ensures FileRowsOk(PlannedOf(env, inputs, shape, file).plan.rows, file.id, inputs.notes)
  {
    hide PlanWithContext, CardsFor, WithNotes, WellNumbered, SoundDiffer;
    var plan := PlanWithContext(file, shape.layout, inputs.options.hunkHeaders, env.diff, ContextOf(inputs, file.id));
    var top := CardsFor(env, inputs.notes, file.id, true, inputs.options.agentNotes, shape);
    var below := CardsFor(env, inputs.notes, file.id, false, inputs.options.agentNotes, shape);
    PlanIsDistinct(file, shape.layout, inputs.options.hunkHeaders, env.diff, ContextOf(inputs, file.id));
    CardsAreNotes(env, inputs.notes, file.id, true, inputs.options.agentNotes, shape);
    CardsAreNotes(env, inputs.notes, file.id, false, inputs.options.agentNotes, shape);
    LevelsAreDistinct(top, below, inputs.notes);
    WovenIsDistinct(file.id, plan, top, below);
    var rows := WithNotes(file.id, plan, top, below).rows;
    forall i | 0 <= i < |rows| && rows[i].Note? ensures IsNoteId(inputs.notes, rows[i].card.id) {
      CardIsNote(top, below, inputs.notes, rows[i].card);
    }
  }

  lemma CardIsNote(top: seq<NoteCard>, below: seq<NoteCard>, notes: seq<ReviewNote>, card: NoteCard)
    requires FromNotes(top, notes, true) && FromNotes(below, notes, false) && card in top + below
    ensures IsNoteId(notes, card.id)
  {
    if card in top {
      var i :| 0 <= i < |top| && top[i] == card;
      var k :| 0 <= k < |notes| && notes[k].id == top[i].id && notes[k].fileLevel == true;
    } else {
      var i :| 0 <= i < |below| && below[i] == card;
      var k :| 0 <= k < |notes| && notes[k].id == below[i].id && notes[k].fileLevel == false;
    }
  }

  // ---- The whole document -----------------------------------------------------------------

  /** All rows of the first n files, one after the other. */
  function AllRows(files: seq<PlannedFile>, n: nat): seq<Row>
    requires n <= |files|
  {
    if n == 0 then [] else AllRows(files, n - 1) + files[n - 1].plan.rows
  }

  ghost predicate SameKeys(bounds: seq<RowBounds>, rows: seq<Row>) {
    |bounds| == |rows| && forall i :: 0 <= i < |rows| ==> bounds[i].key == rows[i].Key()
  }

  lemma {:induction false} FileRowsHaveKeys(w: CellWidth, files: seq<PlannedFile>, o: GeometryOptions, n: nat)
    requires n <= |files|
    ensures SameKeys(FileRows(w, files, o, n), AllRows(files, n))
  {
    hide BodyHeight, RowHeight, BodyRows, SectionAt, FilesBottom;
    if n > 0 {
      FileRowsHaveKeys(w, files, o, n - 1);
      var file := files[n - 1];
      var section := SectionAt(w, file, o, n - 1, FilesBottom(w, files, o, n - 1));
      BodyHasRows(w, file.plan, o, FileOwner(n - 1), section.bodyTop, |file.plan.rows|);
    }
  }

  /** Rows of files with distinct ids. */
  ghost predicate FilesOk(files: seq<PlannedFile>, notes: seq<ReviewNote>) {
    && (forall i :: 0 <= i < |files| ==> FileRowsOk(files[i].plan.rows, files[i].fileId, notes))
    && (forall i, j :: 0 <= i < j < |files| ==> files[i].fileId != files[j].fileId)
  }

  lemma {:induction false} AllRowsAreDistinct(files: seq<PlannedFile>, notes: seq<ReviewNote>, n: nat)
    requires FilesOk(files, notes) && n <= |files|
    ensures var rows := AllRows(files, n);
      && DistinctRows(rows) && AllNoteShaped(rows)
      && (forall i :: 0 <= i < |rows| && rows[i].Note? ==> IsNoteId(notes, rows[i].card.id))
      && (forall i :: 0 <= i < |rows| ==> exists k :: 0 <= k < n && files[k].fileId == rows[i].Key().fileId)
  {
    if n > 0 {
      hide NoteShaped, IsNoteId;
      AllRowsAreDistinct(files, notes, n - 1);
      var before, last := AllRows(files, n - 1), files[n - 1].plan.rows;
      assert FileRowsOk(last, files[n - 1].fileId, notes);
      forall i, j | 0 <= i < |before| && 0 <= j < |last| ensures before[i].Key() != last[j].Key() {
        var k :| 0 <= k < n - 1 && files[k].fileId == before[i].Key().fileId;
        assert files[k].fileId != files[n - 1].fileId;
      }
      JoinDistinct(before, last);
    }
  }

  lemma {:induction false} TrailerIsDistinct(env: Env, unplaced: seq<UnplacedThread>, filter: string, width: nat)
    requires DistinctNotes([], unplaced)
    ensures var rows := TrailerNotes(env, unplaced, filter, width);
      && DistinctRows(rows)
      && forall i :: 0 <= i < |rows| ==>
           (rows[i].Key().kind == NoteKind
            && exists k :: 0 <= k < |unplaced| && rows[i].Key().noteId == Some(unplaced[k].id))
  {
    if unplaced != [] {
      var front, last := unplaced[..|unplaced| - 1], unplaced[|unplaced| - 1];
      TrailerIsDistinct(env, front, filter, width);
      UnplacedHasId(env, last, width);
      hide UnplacedCard;
      var before, rows := TrailerNotes(env, front, filter, width), TrailerNotes(env, unplaced, filter, width);
      forall i | 0 <= i < |before|
        ensures exists k :: 0 <= k < |front| && rows[i].Key().noteId == Some(unplaced[k].id) {
        var k :| 0 <= k < |front| && before[i].Key().noteId == Some(front[k].id);
        assert unplaced[k] == front[k];
      }
      assert unplaced[|front|] == last;
    }
  }

  lemma UnplacedHasId(env: Env, thread: UnplacedThread, width: nat)
    ensures UnplacedCard(env, thread, width).id == thread.id
  {
    hide WrappedTexts;
  }

  lemma {:induction false} PlannedAt(env: Env, inputs: Inputs, shape: Shape, visible: seq<DiffFile>, i: nat)
    requires i < |visible|
    ensures PlannedAll(env, inputs, shape, visible)[i] == PlannedOf(env, inputs, shape, visible[i])
  {
    hide PlannedOf;
    if i < |visible| - 1 { PlannedAt(env, inputs, shape, visible[..|visible| - 1], i); }
  }

  lemma PlannedAreOk(env: Env, inputs: Inputs, shape: Shape, visible: seq<DiffFile>)
    requires SoundDiffer(env.diff) && DistinctNotes(inputs.notes, []) && DistinctFiles(visible)
      && DiffsNumbered(visible)
    ensures var planned := PlannedAll(env, inputs, shape, visible);
      && FilesOk(planned, inputs.notes) && |planned| == |visible|
      && forall i :: 0 <= i < |visible| ==> planned[i].fileId == visible[i].id
  {
    hide SoundDiffer, FileNumbered, FileRowsOk, PlannedOf, DistinctNotes, PlannedAll;
    var planned := PlannedAll(env, inputs, shape, visible);
    forall i | 0 <= i < |visible|
      ensures planned[i].fileId == visible[i].id && FileRowsOk(planned[i].plan.rows, planned[i].fileId, inputs.notes)
    {
      PlannedAt(env, inputs, shape, visible, i);
      PlannedHasId(env, inputs, shape, visible[i]);
      PlannedIsDistinct(env, inputs, shape, visible[i]);
    }
  }

  lemma PlannedHasId(env: Env, inputs: Inputs, shape: Shape, file: DiffFile)
    ensures PlannedOf(env, inputs, shape, file).fileId == file.id
  {
    hide NotedPlan, CompactedPlan, IsCompacted;
  }

  lemma {:induction false} VisibleAreDistinct(env: Env, files: seq<DiffFile>, filter: string)
    requires DistinctFiles(files)
    ensures DistinctFiles(VisibleFiles(env, files, filter))
  {
    if files != [] {
      var front, last := files[..|files| - 1], files[|files| - 1];
      VisibleAreDistinct(env, front, filter);
      VisibleAreFiles(env, front, filter);
      forall f | f in front ensures f.id != last.id {
        var i :| 0 <= i < |front| && front[i] == f;
        assert files[i].id != files[|files| - 1].id;
      }
      StillDistinct(VisibleFiles(env, front, filter), front, last);
    }
  }

  lemma KeysDecide(rows: seq<RowBounds>, source: seq<Row>)
    requires SameKeys(rows, source) && DistinctRows(source)
    ensures forall i, j :: 0 <= i < j < |rows| ==> rows[i].key != rows[j].key
  {
  }

  lemma DocumentIsDistinct(env: Env, inputs: Inputs, v: Viewport)
    requires SoundDiffer(env.diff) && DistinctFiles(inputs.files) && DiffsNumbered(inputs.files)
    requires DistinctNotes(inputs.notes, inputs.unplaced)
    ensures var c := CacheOf(env, inputs, v);
      DistinctRows(AllRows(c.planned, |c.planned|) + (if HasTrailer(c.trailer) then c.trailer.value.rows else []))
  {
    hide PlannedAll, GeometryOf, VisibleFiles, TrailerNotes, SoundDiffer, FileNumbered, NoteShaped;
    var c, visible, shape := CacheOf(env, inputs, v), VisibleFiles(env, inputs.files, inputs.filter),
      ShapeOf(inputs, v);
    VisibleAreFiles(env, inputs.files, inputs.filter);
    VisibleAreDistinct(env, inputs.files, inputs.filter);
    forall i | 0 <= i < |visible| ensures FileNumbered(visible[i]) {
      assert visible[i] in inputs.files;
    }
    PlannedAreOk(env, inputs, shape, visible);
    AllRowsAreDistinct(c.planned, inputs.notes, |c.planned|);
    TrailerIsDistinct(env, inputs.unplaced, inputs.filter, shape.contentWidth);
    var rows := AllRows(c.planned, |c.planned|);
    var trailer := if HasTrailer(c.trailer) then c.trailer.value.rows else [];
    forall i, j | 0 <= i < |rows| && 0 <= j < |trailer| ensures rows[i].Key() != trailer[j].Key() {
      NotInTrailer(inputs.notes, inputs.unplaced, rows[i], trailer[j]);
    }
    JoinDistinct(rows, trailer);
  }

  lemma NotInTrailer(notes: seq<ReviewNote>, unplaced: seq<UnplacedThread>, row: Row, thread: Row)
    requires DistinctNotes(notes, unplaced) && NoteShaped(row) && (row.Note? ==> IsNoteId(notes, row.card.id))
    requires thread.Key().kind == NoteKind
    requires exists k :: 0 <= k < |unplaced| && thread.Key().noteId == Some(unplaced[k].id)
    ensures row.Key() != thread.Key()
  {
    var k :| 0 <= k < |unplaced| && thread.Key().noteId == Some(unplaced[k].id);
    if row.Note? {
      var n :| 0 <= n < |notes| && notes[n].id == row.card.id;
      assert notes[n].id != unplaced[k].id;
    }
  }

  /**
   * The geometry of every review has distinct row keys: of well-numbered diffs of distinct files, with any gaps
   * expanded, any notes and any unplaced threads. So viewport anchors name rows.
   */
  lemma CacheIsWellKeyed(env: Env, inputs: Inputs, v: Viewport)
    requires SoundDiffer(env.diff) && DistinctFiles(inputs.files) && DiffsNumbered(inputs.files)
    requires DistinctNotes(inputs.notes, inputs.unplaced)
    ensures WellKeyed(CacheOf(env, inputs, v).geometry)
  {
    hide PlannedAll, TrailerOf, VisibleFiles, FileRows, AllRows, DistinctRows, RowIndex, FilesBottom, BodyRows,
      HunkAnchors, Sections,
      Searchable, DiffsNumbered, SoundDiffer, DistinctNotes;
    var c, o := CacheOf(env, inputs, v), GeometryOptionsOf(inputs, ShapeOf(inputs, v), v);
    DocumentIsDistinct(env, inputs, v);
    FileRowsHaveKeys(env.w, c.planned, o, |c.planned|);
    var top := FilesBottom(env.w, c.planned, o, |c.planned|);
    if HasTrailer(c.trailer) {
      BodyHasRows(env.w, c.trailer.value, o, TrailerOwner, top + 2, |c.trailer.value.rows|);
    }
    IndexIsBuilt(env, inputs, v);
    Stacks(env.w, c.planned, c.trailer, o);
    KeysDecide(c.geometry.rows, AllRows(c.planned, |c.planned|) + (if HasTrailer(c.trailer) then c.trailer.value.rows
      else []));
  }

  // ---- Which file a row belongs to --------------------------------------------------------

  ghost predicate LinesInFile(rows: seq<LineRow>, fileId: string) {
    forall i :: 0 <= i < |rows| ==> rows[i].key.fileId == fileId
  }

  lemma {:induction false} BlockStackInFile(diff: Differ, fileId: string, hunk: nat, block: seq<DiffLine>, n: nat)
    requires n <= |block|
    ensures LinesInFile(BlockStackRows(diff, fileId, hunk, block, n), fileId)
  {
    hide BlockSpans, BlockStackRows;
    if n == 0 {
      NoBlockRows(diff, fileId, hunk, block, Old);
    } else {
      BlockStackInFile(diff, fileId, hunk, block, n - 1);
      BlockStackPush(diff, fileId, hunk, block, n);
    }
  }

  lemma {:induction false} StackInFile(diff: Differ, fileId: string, hunk: nat, lines: seq<DiffLine>, at: nat)
    requires at <= |lines|
    ensures LinesInFile(StackRows(diff, fileId, hunk, lines, at), fileId)
    decreases |lines| - at
  {
    hide BlockStackRows, StackRows, PlainText, Sanitize.SanitizeLine;
    NoStackRows(diff, fileId, hunk, lines);
    if at < |lines| {
      StackRowsFrom(diff, fileId, hunk, lines, at);
      if lines[at].kind == Context {
        StackInFile(diff, fileId, hunk, lines, at + 1);
      } else {
        var end := BlockEnd(lines, at + 1);
        BlockStackInFile(diff, fileId, hunk, lines[at..end], end - at);
        StackInFile(diff, fileId, hunk, lines, end);
      }
    }
  }

  lemma HunkInFile(layout: Layout, diff: Differ, fileId: string, hunk: nat, lines: seq<DiffLine>)
    ensures InFile(Lift(HunkRows(layout, diff, fileId, hunk, lines)), fileId)
  {
    hide SplitRows, StackRows, RowCells;
    StackInFile(diff, fileId, hunk, lines, 0);
    SplitRowsAreKeyed(diff, fileId, hunk, lines, 0);
    var rows := SplitRows(diff, fileId, hunk, lines, 0);
    assert forall i :: 0 <= i < |rows| ==> Keyed(rows[i], fileId, hunk);
  }

  lemma {:induction false} ExpandedInFile(fileId: string, layout: Layout, hunk: nat, lines: seq<ContextLine>, n: nat)
    requires n <= |lines|
    ensures InFile(ExpandedRows(fileId, layout, hunk, lines, n), fileId)
  {
    hide PlainText;
    if n > 0 { ExpandedInFile(fileId, layout, hunk, lines, n - 1); }
  }

  lemma GapInFile(fileId: string, layout: Layout, context: Option<FileContext>, gap: Option<CollapsedGap>)
    ensures InFile(OptionalGapRows(fileId, layout, context, gap), fileId)
  {
    if gap.Some? {
      hide Expansion, ExpandedRows;
      var lines := Expansion(context, gap.value).0;
      ExpandedInFile(fileId, layout, gap.value.key.hunkIndex, lines, |lines|);
    }
  }

  lemma {:induction false} SectionsInFile(file: DiffFile, layout: Layout, headers: bool, diff: Differ,
                                          context: Option<FileContext>,
                                          gaps: seq<CollapsedGap>, n: nat)
    requires n <= |file.hunks|
    ensures InFile(HunkSections(file, layout, headers, diff, context, gaps, n), file.id)
  {
    hide OptionalGapRows, HunkRows, Lift, FindBefore, Sanitize.SanitizeLine;
    if n > 0 {
      SectionsInFile(file, layout, headers, diff, context, gaps, n - 1);
      GapInFile(file.id, layout, context, FindBefore(gaps, n - 1));
      HunkInFile(layout, diff, file.id, n - 1, file.hunks[n - 1].lines);
    }
  }

  lemma PlanInFile(file: DiffFile, layout: Layout, headers: bool, diff: Differ, context: Option<FileContext>)
    ensures InFile(PlanWithContext(file, layout, headers, diff, context).rows, file.id)
  {
    hide HunkSections, OptionalGapRows, GapsOf, FindTrailing, Anchors, LargestInHunks;
    var gaps := GapsOf(file, context);
    SectionsInFile(file, layout, headers, diff, context, gaps, |file.hunks|);
    GapInFile(file.id, layout, context, FindTrailing(gaps));
  }

  lemma {:induction false} WovenInFile(fileId: string, rows: seq<Row>, cards: seq<NoteCard>, n: nat)
    requires n <= |rows| && InFile(rows, fileId)
    ensures InFile(Woven(fileId, rows, cards, n), fileId)
  {
    if n > 0 {
      hide CardsAt, NoteRows;
      WovenInFile(fileId, rows, cards, n - 1);
      NoteRowsAreShaped(fileId, CardsAt(rows, cards, n - 1));
    }
  }

  lemma PlannedInFile(env: Env, inputs: Inputs, shape: Shape, file: DiffFile)
    ensures InFile(PlannedOf(env, inputs, shape, file).plan.rows, file.id)
  {
    hide PlanWithContext, CardsFor, NoteRows, Woven;
    var plan := PlanWithContext(file, shape.layout, inputs.options.hunkHeaders, env.diff, ContextOf(inputs, file.id));
    PlanInFile(file, shape.layout, inputs.options.hunkHeaders, env.diff, ContextOf(inputs, file.id));
    NoteRowsAreShaped(file.id, CardsFor(env, inputs.notes, file.id, true, inputs.options.agentNotes, shape));
    WovenInFile(file.id, plan.rows, CardsFor(env, inputs.notes, file.id, false, inputs.options.agentNotes, shape),
      |plan.rows|);
  }

  lemma {:induction false} RowsAreOfFiles(files: seq<PlannedFile>, n: nat, i: nat)
    requires n <= |files| && i < |AllRows(files, n)|
    requires forall k :: 0 <= k < |files| ==> InFile(files[k].plan.rows, files[k].fileId)
    ensures exists k :: 0 <= k < n && files[k].fileId == AllRows(files, n)[i].Key().fileId
  {
    if i < |AllRows(files, n - 1)| {
      RowsAreOfFiles(files, n - 1, i);
    } else {
      var rows := files[n - 1].plan.rows;
      assert AllRows(files, n)[i] == rows[i - |AllRows(files, n - 1)|];
      assert files[n - 1].fileId == AllRows(files, n)[i].Key().fileId;
    }
  }

  /** A file the filter lets through. */
  ghost predicate Lets(env: Env, inputs: Inputs, fileId: string) {
    exists file :: file in inputs.files && file.id == fileId && env.matches(file, inputs.filter)
  }

  /** A file's row can only be under the cursor if the filter lets the file through. */
  lemma SelectedIsVisible(env: Env, inputs: Inputs, v: Viewport, i: nat)
    requires i < |CacheOf(env, inputs, v).geometry.rows|
    ensures var cursor := CursorAt(CacheOf(env, inputs, v).geometry.rows[i]);
      cursor.file.Some? ==> Lets(env, inputs, cursor.file.value)
  {
    hide PlannedAll, VisibleFiles, TrailerOf, FileRows, FilesBottom, BodyRows, Sections, HunkAnchors, RowIndex,
      AllRows, PlannedOf;
    var c, visible, shape := CacheOf(env, inputs, v), VisibleFiles(env, inputs.files, inputs.filter),
      ShapeOf(inputs, v);
    var o, n := GeometryOptionsOf(inputs, shape, v), |c.planned|;
    VisibleAreFiles(env, inputs.files, inputs.filter);
    forall k | 0 <= k < n
      ensures c.planned[k].fileId == visible[k].id && InFile(c.planned[k].plan.rows, c.planned[k].fileId) {
      PlannedAt(env, inputs, shape, visible, k);
      PlannedHasId(env, inputs, shape, visible[k]);
      PlannedInFile(env, inputs, shape, visible[k]);
    }
    FileRowsHaveKeys(env.w, c.planned, o, n);
    var rows := FileRows(env.w, c.planned, o, n);
    if i < |rows| {
      RowsAreOfFiles(c.planned, n, i);
      var row := AllRows(c.planned, n)[i];
      var k :| 0 <= k < n && c.planned[k].fileId == row.Key().fileId;
      assert visible[k] in visible && visible[k].id == rows[i].key.fileId;
    } else if HasTrailer(c.trailer) {
      BodyHasRows(env.w, c.trailer.value, o, TrailerOwner, FilesBottom(env.w, c.planned, o, n) + 2,
        |c.trailer.value.rows|);
    }
  }

  /** Asking for a hunk of a file that the filter hides never selects that file. */
  lemma HiddenIsNotReached(env: Env, inputs: Inputs, v: Viewport, fileId: string, hunk: nat)
    requires !Lets(env, inputs, fileId)
    ensures Landing(env, inputs, CacheOf(env, inputs, v), fileId, hunk).file != Some(fileId)
  {
    hide Reselected, TargetRow, StaysVisible, FileToFind, CacheOf, Lets;
    var c := CacheOf(env, inputs, v);
    forall i | 0 <= i < |c.geometry.rows| ensures CursorAt(c.geometry.rows[i]).file != Some(fileId) {
      SelectedIsVisible(env, inputs, v, i);
    }
  }
}
