/** A published comment's target covers exactly what was selected, and its thread comes back to the same hunk. */
module CommentTargetProofs {
  import opened DiffModel
  import PlanProofs
  import opened Emphasis
  import opened Context
  import opened Rows
  import opened Plan
  import opened CommentTargets

  // ---- What a target covers ---------------------------------------------------------------

  lemma {:induction false} DedupKeeps(lines: seq<nat>)
    ensures forall n :: n in Dedup(lines) <==> n in lines
    ensures lines != [] ==> Dedup(lines) != [] && Dedup(lines)[|Dedup(lines)| - 1] == lines[|lines| - 1]
  {
    if |lines| >= 2 {
      var front, last := lines[..|lines| - 1], lines[|lines| - 1];
      DedupKeeps(front);
      assert lines == front + [last];
      assert front[|front| - 1] == lines[|lines| - 2];
    }
  }

  lemma {:induction false} RunOfLines(lines: seq<nat>)
    requires lines != [] && Consecutive(lines)
    ensures lines == Numbers(lines[0], |lines|)
  {
    if |lines| > 1 {
      RunOfLines(lines[..|lines| - 1]);
      var i := |lines| - 2;
      assert lines[i + 1] == lines[i] + 1;
      assert lines == lines[..|lines| - 1] + [lines[|lines| - 1]];
    }
  }

  function RangeOn(target: NoteTarget, side: Side): Option<LineRange> {
    if side == Old then target.oldRange else target.newRange
  }

  predicate Inside(line: Result<(Side, Option<nat>), TargetError>, remote: InlineTarget) {
    line.Ok? && line.value.0 == remote.side && line.value.1.Some? && remote.start <= line.value.1.value <= remote.end
  }

  /**
   * An accepted selection is of one file and one side, every row has a line there, and the target's range
   * holds exactly those lines: each number in it was selected, and nothing selected is outside it.
   */
  lemma TargetIsTheSelection(files: seq<DiffFile>, layout: Layout, focused: Side, rows: seq<Row>)
    requires Selection(files, layout, focused, rows).Ok?
    ensures var (remote, target) := Selection(files, layout, focused, rows).value;
      && rows != [] && remote.start <= remote.end
      && (forall i :: 0 <= i < |rows| ==> rows[i].Key().fileId == target.fileId)
      && (forall i :: 0 <= i < |rows| ==> Inside(SelectedLine(layout, focused, rows[i]), remote))
      && (forall n: nat :: remote.start <= n <= remote.end ==>
            exists i :: 0 <= i < |rows| && SelectedLine(layout, focused, rows[i]) == Ok((remote.side, Some(n))))
      && RangeOn(target, remote.side) == Some(LineRange(remote.start, remote.end))
      && target.anchorSide == Some(remote.side) && target.anchorLine == Some(remote.start)
  {
    hide SelectedLine, Collected, Dedup, Consecutive, OverlappingHunk;
    var lines := Collected(layout, focused, rows).value.1;
    CollectedLines(layout, focused, rows);
    DedupKeeps(lines);
    var kept := Dedup(lines);
    RunOfLines(kept);
    FoundFile(files, rows[0].Key().fileId);
    var start, end := kept[0], kept[|kept| - 1];
    assert end == start + |kept| - 1;
    forall i | 0 <= i < |rows| ensures start <= lines[i] <= end {
      assert lines[i] in kept;
    }
    var side := Collected(layout, focused, rows).value.0.value;
    forall n: nat | start <= n <= end
      ensures exists i :: 0 <= i < |rows| && SelectedLine(layout, focused, rows[i]) == Ok((side, Some(n)))
    {
      assert kept[n - start] == n && n in kept;
      var i :| 0 <= i < |lines| && lines[i] == n;
      assert SelectedLine(layout, focused, rows[i]) == Ok((side, Some(n)));
    }
  }

  lemma {:induction false} FoundFile(files: seq<DiffFile>, id: string)
    ensures FileById(files, id).Some? ==> FileById(files, id).value in files && FileById(files, id).value.id == id
  {
    if files != [] { FoundFile(files[1..], id); }
  }

  // ---- Coming back ------------------------------------------------------------------------

  /** Line numbers on a side grow from hunk to hunk. */
  ghost predicate Increasing(hunks: seq<Hunk>, side: Side) {
    forall j, k, a, b :: 0 <= j < k < |hunks| && HasNumber(hunks[j], side, a) && HasNumber(hunks[k], side, b) ==> a < b
  }

  /** Every selected row shows a line of the hunk. */
  ghost predicate RowsOfHunk(layout: Layout, focused: Side, rows: seq<Row>, hunk: Hunk) {
    forall i :: 0 <= i < |rows| ==>
      var line := SelectedLine(layout, focused, rows[i]);
      line.Ok? && line.value.1.Some? ==> HasNumber(hunk, line.value.0, line.value.1.value)
  }

  lemma {:induction false} HunkRangeHolds(lines: seq<DiffLine>, side: Side)
    ensures var range := HunkRange(lines, side);
      && (range.None? <==> forall i :: 0 <= i < |lines| ==> NumberOn(lines[i], side) == None)
      && (range.Some? ==>
           && range.value.start <= range.value.end
           && (exists i :: 0 <= i < |lines| && NumberOn(lines[i], side) == Some(range.value.start))
           && (exists i :: 0 <= i < |lines| && NumberOn(lines[i], side) == Some(range.value.end))
           && forall i :: 0 <= i < |lines| && NumberOn(lines[i], side).Some? ==>
                range.value.start <= NumberOn(lines[i], side).value <= range.value.end)
  {
    if lines != [] {
      hide NumberOn;
      var front, last := lines[..|lines| - 1], |lines| - 1;
      HunkRangeHolds(front, side);
      var before := HunkRange(front, side);
      if before.Some? {
        var i :| 0 <= i < |front| && NumberOn(front[i], side) == Some(before.value.start);
        var j :| 0 <= j < |front| && NumberOn(front[j], side) == Some(before.value.end);
        assert NumberOn(lines[i], side) == Some(before.value.start)
          && NumberOn(lines[j], side) == Some(before.value.end);
      }
      var now := HunkRange(lines, side);
      assert now.Some? ==> (NumberOn(lines[last], side) == Some(now.value.start) || before.Some?);
    }
  }

  lemma RangeEnds(hunk: Hunk, side: Side)
    ensures HunkRange(hunk.lines, side).Some? ==>
      && HasNumber(hunk, side, HunkRange(hunk.lines, side).value.start)
      && HasNumber(hunk, side, HunkRange(hunk.lines, side).value.end)
    ensures forall n: nat :: HasNumber(hunk, side, n) ==>
      HunkRange(hunk.lines, side).Some?
        && HunkRange(hunk.lines, side).value.start <= n <= HunkRange(hunk.lines, side).value.end
  {
    HunkRangeHolds(hunk.lines, side);
  }

  lemma FirstOfRange(hunk: Hunk, side: Side, start: nat, end: nat)
    requires start <= end
    ensures HoldsRange(hunk, side, start, end) ==> HasNumber(hunk, side, start)
  {
  }

  /** A range of lines of hunk h overlaps no earlier hunk, and no earlier hunk holds it. */
  lemma EarlierHunksMiss(hunks: seq<Hunk>, side: Side, h: nat, j: nat, start: nat, end: nat)
    requires j < h < |hunks| && Increasing(hunks, side) && start <= end && HoldsRange(hunks[h], side, start, end)
    ensures !RangeMeets(Some(LineRange(start, end)), hunks[j], side) && !HoldsRange(hunks[j], side, start, end)
  {
    hide HasNumber, HunkRange;
    RangeEnds(hunks[j], side);
    assert HasNumber(hunks[h], side, start);
    FirstOfRange(hunks[j], side, start, end);
  }

  lemma HoldingMeets(hunk: Hunk, side: Side, start: nat, end: nat)
    requires start <= end && HoldsRange(hunk, side, start, end)
    ensures RangeMeets(Some(LineRange(start, end)), hunk, side)
  {
    hide HasNumber, HunkRange;
    RangeEnds(hunk, side);
    assert HasNumber(hunk, side, start) && HasNumber(hunk, side, end);
  }

  lemma {:induction false} SameHunk(hunks: seq<Hunk>, side: Side, h: nat, start: nat, end: nat, k: nat)
    requires k <= h < |hunks| && Increasing(hunks, side) && start <= end && HoldsRange(hunks[h], side, start, end)
    ensures HoldingHunk(hunks, side, start, end, k) == Some(h)
    ensures var range := Some(LineRange(start, end));
      OverlappingHunk(hunks, if side == Old then range else None, if side == New then range else None, k) == Some(h)
    decreases h - k
  {
    hide HoldsRange, Increasing, HunkRange;
    if k < h {
      EarlierHunksMiss(hunks, side, h, k, start, end);
      SameHunk(hunks, side, h, start, end, k + 1);
    } else {
      HoldingMeets(hunks[h], side, start, end);
    }
  }

  ghost predicate DistinctPaths(files: seq<DiffFile>) {
    forall i, j :: 0 <= i < j < |files| ==> files[i].path != files[j].path
  }

  lemma {:induction false} FindByPath(files: seq<DiffFile>, file: DiffFile)
    requires file in files && DistinctPaths(files)
    ensures FindPath(files, file.path) == Some(file)
  {
    if files[0] != file {
      FindByPath(files[1..], file);
      var j :| 0 < j < |files| && files[j] == file;
      assert files[0].path != files[j].path;
    }
  }

  /** The thread a published target comes back as; a single line may come back without a start. */
  predicate ThreadFor(remote: InlineTarget, thread: Thread) {
    && thread.path == remote.path && thread.subject.LineSubject?
    && thread.subject.side == Some(remote.side) && thread.subject.endLine == Some(remote.end)
    && (thread.subject.startSide == None || thread.subject.startSide == Some(remote.side))
    && (thread.subject.startLine == Some(remote.start)
         || (thread.subject.startLine == None && remote.start == remote.end))
  }

  /**
   * A comment on lines of one hunk, published and re-imported as a thread, is placed in the same file, on the
   * same lines of the same side, in the same hunk. Only its anchor moves, from the first line to the last.
   */
  lemma CommentComesBack(files: seq<DiffFile>, layout: Layout, focused: Side, rows: seq<Row>, h: nat, thread: Thread)
    requires Selection(files, layout, focused, rows).Ok? && DistinctPaths(files)
    requires var (remote, target) := Selection(files, layout, focused, rows).value;
      var file := FileById(files, rows[0].Key().fileId).value;
      && h < |file.hunks| && Increasing(file.hunks, remote.side)
      && RowsOfHunk(layout, focused, rows, file.hunks[h])
      && ThreadFor(remote, thread)
    ensures var (remote, target) := Selection(files, layout, focused, rows).value;
      target.hunkIndex == Some(h)
      && PlaceThread(files, thread) == Ok(Placed(thread, target.(anchorLine := Some(remote.end)), false))
  {
    hide SelectedLine, Increasing, HoldsRange, Selection;
    var (remote, target) := Selection(files, layout, focused, rows).value;
    TargetIsTheSelection(files, layout, focused, rows);
    SelectionParts(files, layout, focused, rows);
    var file := FileById(files, rows[0].Key().fileId).value;
    FoundFile(files, rows[0].Key().fileId);
    FindByPath(files, file);
    RangeInHunk(layout, focused, rows, file.hunks[h], remote.side, remote.start, remote.end);
    SameHunk(file.hunks, remote.side, h, remote.start, remote.end, 0);
  }

  lemma RangeInHunk(layout: Layout, focused: Side, rows: seq<Row>, hunk: Hunk, side: Side, start: nat, end: nat)
    requires RowsOfHunk(layout, focused, rows, hunk)
    requires forall n: nat :: start <= n <= end ==>
      exists i :: 0 <= i < |rows| && SelectedLine(layout, focused, rows[i]) == Ok((side, Some(n)))
    ensures HoldsRange(hunk, side, start, end)
  {
    hide SelectedLine, HasNumber;
    forall n: nat | start <= n <= end ensures HasNumber(hunk, side, n) {
      var i :| 0 <= i < |rows| && SelectedLine(layout, focused, rows[i]) == Ok((side, Some(n)));
      var line := SelectedLine(layout, focused, rows[i]);
      assert line.Ok? && line.value.1.Some?;
    }
  }

  /** How the two targets of an accepted selection are put together. */
  lemma SelectionParts(files: seq<DiffFile>, layout: Layout, focused: Side, rows: seq<Row>)
    requires Selection(files, layout, focused, rows).Ok?
    ensures rows != []
    ensures var (remote, target) := Selection(files, layout, focused, rows).value;
      var file := FileById(files, rows[0].Key().fileId);
      var range := Some(LineRange(remote.start, remote.end));
      && file.Some? && remote.path == file.value.path
      && target == (
           var (oldRange, newRange) := if remote.side == Old then (range, None) else (None, range);
           NoteTarget(file.value.id, oldRange, newRange, OverlappingHunk(file.value.hunks, oldRange, newRange, 0),
                      Some(remote.side), Some(remote.start)))
  {
    hide SelectedLine, Collected, Dedup, Consecutive, OverlappingHunk, FileById;
  }

  lemma {:induction false} HoldingIsFirst(hunks: seq<Hunk>, side: Side, start: nat, end: nat, k: nat)
    requires k <= |hunks|
    ensures var found := HoldingHunk(hunks, side, start, end, k);
      && (found.Some? <==> exists h :: k <= h < |hunks| && HoldsRange(hunks[h], side, start, end))
      && (found.Some? ==> k <= found.value < |hunks| && HoldsRange(hunks[found.value], side, start, end))
      && (found.Some? ==> forall h :: k <= h < found.value ==> !HoldsRange(hunks[h], side, start, end))
    decreases |hunks| - k
  {
    hide HoldsRange;
    if k < |hunks| { HoldingIsFirst(hunks, side, start, end, k + 1); }
  }

  /** Some hunk of the file holds every line of the target. */
  ghost predicate HasHome(file: DiffFile, remote: InlineTarget) {
    exists h :: 0 <= h < |file.hunks| && HoldsRange(file.hunks[h], remote.side, remote.start, remote.end)
  }

  /**
   * Any accepted selection, published and re-imported, is placed if and only if one hunk holds all its lines; then
   * it is in the same file, on the same lines of the same side, in the first such hunk, anchored to its last line.
   * Otherwise it is refused for want of a hunk.
   */
  lemma ComesBackIff(files: seq<DiffFile>, layout: Layout, focused: Side, rows: seq<Row>, thread: Thread)
    requires Selection(files, layout, focused, rows).Ok? && DistinctPaths(files)
    requires ThreadFor(Selection(files, layout, focused, rows).value.0, thread)
    ensures var (remote, target) := Selection(files, layout, focused, rows).value;
      var file, placed := FileById(files, rows[0].Key().fileId), PlaceThread(files, thread);
      && file.Some?
      && (placed.Ok? <==> HasHome(file.value, remote))
      && (placed.Ok? ==>
            var hunk := HoldingHunk(file.value.hunks, remote.side, remote.start, remote.end, 0);
            placed.value == Placed(thread, target.(hunkIndex := hunk, anchorLine := Some(remote.end)), false))
      && (placed.Err? ==> placed.error == NoHunk(remote.side, remote.start, remote.end))
  {
    hide SelectedLine, HoldsRange, Selection, HoldingHunk;
    var (remote, target) := Selection(files, layout, focused, rows).value;
    TargetIsTheSelection(files, layout, focused, rows);
    SelectionParts(files, layout, focused, rows);
    var file := FileById(files, rows[0].Key().fileId).value;
    FoundFile(files, rows[0].Key().fileId);
    FindByPath(files, file);
    HoldingIsFirst(file.hunks, remote.side, remote.start, remote.end, 0);
  }

  // ---- Selections without a home ----------------------------------------------------------

  /** A hunk's numbers are those from its start on. */
  ghost predicate NumbersInSpan(hunks: seq<Hunk>, side: Side) {
    forall k, n: nat :: 0 <= k < |hunks| && HasNumber(hunks[k], side, n) ==>
      Start(hunks[k], side) <= n < Start(hunks[k], side) + Count(hunks[k], side)
  }

  /** Line n of a side lies before hunk k and after the hunks before it. */
  ghost predicate BeforeHunk(hunks: seq<Hunk>, k: nat, side: Side, n: nat)
    requires k <= |hunks|
  {
    CursorsAfter(hunks[..k]).On(side) <= n && (k < |hunks| ==> n < Start(hunks[k], side))
  }

  lemma OutsideHunks(hunks: seq<Hunk>, k: nat, side: Side, n: nat, j: nat)
    requires k <= |hunks| && j < |hunks| && Ordered(hunks, side) && NumbersInSpan(hunks, side)
      && BeforeHunk(hunks, k, side, n)
    ensures !HasNumber(hunks[j], side, n)
  {
    hide CursorsAfter, SideLines, HasNumber;
    CursorStep(hunks, j);
    if j < k {
      PlanProofs.CursorsGrow(hunks, j + 1, k, side);
    } else if k < j {
      CursorStep(hunks, k);
      PlanProofs.CursorsGrow(hunks, k + 1, j, side);
    }
  }

  /** The lines of a gap lie before the hunk it is in front of, or after the last. */
  lemma GapIsBefore(file: DiffFile, context: Option<FileContext>, gap: CollapsedGap, side: Side, n: nat)
    requires gap in GapsOf(file, context) && gap.Range(side).start <= n <= gap.Range(side).end
    ensures exists k: nat :: k <= |file.hunks| && BeforeHunk(file.hunks, k, side, n)
  {
    hide CursorsAfter;
    GapsBeforeKeys(file.id, file.hunks, |file.hunks|);
    var length := if context.Some? then SourceLength(context.value) else None;
    assert file.hunks[..|file.hunks|] == file.hunks;
    if gap in GapsBefore(file.id, file.hunks, |file.hunks|) {
      assert BeforeHunk(file.hunks, gap.key.hunkIndex, side, n);
    } else {
      assert TrailingGap(file.id, file.hunks, length) == Some(gap);
      assert BeforeHunk(file.hunks, |file.hunks|, side, n);
    }
  }

  lemma ExpandedInGap(context: Option<FileContext>, gap: CollapsedGap, i: nat)
    requires i < |Expansion(context, gap).0|
      && gap.oldRange.end - gap.oldRange.start == gap.newRange.end - gap.newRange.start
    requires gap.oldRange.start <= gap.oldRange.end
    ensures var line := Expansion(context, gap).0[i];
      && gap.oldRange.start <= line.oldLine <= gap.oldRange.end
      && gap.newRange.start <= line.newLine <= gap.newRange.end
  {
    hide Context.SourceLines;
  }

  lemma GapIsEven(file: DiffFile, context: Option<FileContext>, gap: CollapsedGap)
    requires gap in GapsOf(file, context)
    ensures gap.oldRange.end - gap.oldRange.start == gap.newRange.end - gap.newRange.start
      && gap.oldRange.start <= gap.oldRange.end
  {
    hide CursorsAfter;
    GapsBeforeKeys(file.id, file.hunks, |file.hunks|);
  }

  function SideCommented(layout: Layout, focused: Side): Side { if layout == SplitLayout then focused else New }

  /** An expanded row is accepted, on the focused side of a split and on the new side of a stack. */
  lemma ExpandedIsAccepted(files: seq<DiffFile>, file: DiffFile, layout: Layout, focused: Side, hunk: nat,
                           line: ContextLine)
    requires FileById(files, file.id) == Some(file)
    ensures var side := SideCommented(layout, focused);
      var number := if side == Old then line.oldLine else line.newLine;
      var selected := Selection(files, layout, focused, [ExpandedRow(file.id, layout, hunk, line)]);
      selected.Ok? && selected.value.0 == InlineTarget(file.path, side, number, number)
  {
    hide PlainText, OverlappingHunk, FileById, Collected;
    var row := ExpandedRow(file.id, layout, hunk, line);
    var side := SideCommented(layout, focused);
    OneCollected(layout, focused, row, side, if side == Old then line.oldLine else line.newLine);
  }

  lemma OneCollected(layout: Layout, focused: Side, row: Row, side: Side, number: nat)
    requires SelectedLine(layout, focused, row) == Ok((side, Some(number)))
    ensures Collected(layout, focused, [row]) == Ok((Some(side), [number]))
  {
    hide SelectedLine, Collected;
    NothingCollected(layout, focused);
    assert [row][..0] == [] && [row][..1] == [row];
    CollectedStep(layout, focused, [row], 0);
    assert [] + [number] == [number];
  }

  /**
   * Every line of expanded context of an ordered diff can be selected for a comment, and no such comment comes
   * back: no hunk has the line.
   */
  lemma ExpandedDoesNotComeBack(files: seq<DiffFile>, file: DiffFile, layout: Layout, focused: Side,
                                context: Option<FileContext>, gap: CollapsedGap, i: nat, thread: Thread)
    requires DistinctPaths(files) && FileById(files, file.id) == Some(file)
    requires var side := SideCommented(layout, focused); Ordered(file.hunks, side) && NumbersInSpan(file.hunks, side)
    requires gap in GapsOf(file, context) && i < |Expansion(context, gap).0|
    ensures var row := ExpandedRow(file.id, layout, gap.key.hunkIndex, Expansion(context, gap).0[i]);
      var selected := Selection(files, layout, focused, [row]);
      && selected.Ok?
      && (ThreadFor(selected.value.0, thread) ==>
            PlaceThread(files, thread)
              == Err(NoHunk(selected.value.0.side, selected.value.0.start, selected.value.0.end)))
  {
    hide Selection, Expansion, GapsOf, HasNumber, PlaceThread, Ordered, NumbersInSpan, DistinctPaths, ThreadFor,
      BeforeHunk;
    var line := Expansion(context, gap).0[i];
    var rows := [ExpandedRow(file.id, layout, gap.key.hunkIndex, line)];
    ExpandedIsAccepted(files, file, layout, focused, gap.key.hunkIndex, line);
    var remote := Selection(files, layout, focused, rows).value.0;
    GapIsEven(file, context, gap);
    ExpandedInGap(context, gap, i);
    GapIsBefore(file, context, gap, remote.side, remote.start);
    var k: nat :| k <= |file.hunks| && BeforeHunk(file.hunks, k, remote.side, remote.start);
    forall j | 0 <= j < |file.hunks| ensures !HoldsRange(file.hunks[j], remote.side, remote.start, remote.end) {
      OutsideHunks(file.hunks, k, remote.side, remote.start, j);
      FirstOfRange(file.hunks[j], remote.side, remote.start, remote.end);
    }
    hide HoldsRange;
    if ThreadFor(remote, thread) { ComesBackIff(files, layout, focused, rows, thread); }
  }

  const SECOND_LINE := Hunk(2, 2, "", [DiffLine(Deletion, "a", Some(2), None), DiffLine(Addition, "b", None, Some(2))])
  const FIRST_ADDED := Hunk(0, 1, "", [DiffLine(Addition, "a", None, Some(1))])
  const SECOND_ADDED := Hunk(0, 2, "", [DiffLine(Addition, "b", None, Some(2))])
  const CHANGED := DiffFile("f", "f", None, [SECOND_LINE], false, false, false)
  const ADDED := DiffFile("f", "f", None, [FIRST_ADDED, SECOND_ADDED], false, false, false)

  /** Line 1 of a file whose second line changed: accepted, published, and without a hunk when it comes back. */
  lemma ContextLineIsRefused(layout: Layout)
    ensures var rows := [ExpandedRow("f", layout, 0, ContextLine(1, 1, "x"))];
      && Selection([CHANGED], layout, New, rows).Ok?
      && Selection([CHANGED], layout, New, rows).value.0 == InlineTarget("f", New, 1, 1)
    ensures PlaceThread([CHANGED], Thread("f", LineSubject(Some(New), None, None, Some(1)))) == Err(NoHunk(New, 1, 1))
  {
    hide Selection;
    ExpandedIsAccepted([CHANGED], CHANGED, layout, New, 0, ContextLine(1, 1, "x"));
    hide HoldingHunk;
    assert !HasNumber(SECOND_LINE, New, 1);
    assert !HoldsRange(SECOND_LINE, New, 1, 1);
    HoldingIsFirst(CHANGED.hunks, New, 1, 1, 0);
    assert FindPath([CHANGED], "f") == Some(CHANGED);
  }

  /**
   * Lines 1 and 2, each added by a hunk of its own, with hunk headers hidden: the plan shows them next to each
   * other, they are accepted as one range, and no single hunk holds it when it comes back.
   */
  lemma RangeAcrossHunksIsRefused(diff: Differ)
    ensures var rows := PlanWithContext(ADDED, StackLayout, false, diff, None).rows;
      && |rows| == 2 && Selection([ADDED], StackLayout, New, rows).Ok?
      && Selection([ADDED], StackLayout, New, rows).value.0 == InlineTarget("f", New, 1, 2)
    ensures PlaceThread([ADDED], Thread("f", LineSubject(Some(New), None, Some(1), Some(2)))) == Err(NoHunk(New, 1, 2))
  {
    var spans := TwoRows(diff);
    var a, b := StackRow("f", 0, FIRST_ADDED.lines[0], spans.0), StackRow("f", 1, SECOND_ADDED.lines[0], spans.1);
    TwoAccepted(Line(a), Line(b));
    assert !HasNumber(FIRST_ADDED, New, 2) && !HasNumber(SECOND_ADDED, New, 1);
    assert !HoldsRange(FIRST_ADDED, New, 1, 2) && !HoldsRange(SECOND_ADDED, New, 1, 2);
    NotHeld();
  }

  lemma NotHeld()
    requires !HoldsRange(FIRST_ADDED, New, 1, 2) && !HoldsRange(SECOND_ADDED, New, 1, 2)
    ensures PlaceThread([ADDED], Thread("f", LineSubject(Some(New), None, Some(1), Some(2)))) == Err(NoHunk(New, 1, 2))
  {
    hide HoldingHunk, HoldsRange;
    HoldingIsFirst(ADDED.hunks, New, 1, 2, 0);
    assert FindPath([ADDED], "f") == Some(ADDED);
  }

  lemma OneAdded(diff: Differ, hunk: nat, line: DiffLine) returns (spans: seq<Span>)
    requires line.kind == Addition
    ensures HunkRows(StackLayout, diff, "f", hunk, [line]) == [StackRow("f", hunk, line, spans)]
  {
    hide BlockSpans, StackRow, StackRows;
    var lines := [line];
    StackRowsFrom(diff, "f", hunk, lines, 0);
    NoStackRows(diff, "f", hunk, lines);
    assert BlockEnd(lines, 1) == 1 && lines[0..1] == lines;
    spans := BlockSpans(diff, lines, 0);
    assert BlockStackRows(diff, "f", hunk, lines, 1) == [] + [StackRow("f", hunk, line, spans)];
  }

  lemma TwoRows(diff: Differ) returns (spans: (seq<Span>, seq<Span>))
    ensures PlanWithContext(ADDED, StackLayout, false, diff, None).rows
         == [Line(StackRow("f", 0, FIRST_ADDED.lines[0], spans.0)),
           Line(StackRow("f", 1, SECOND_ADDED.lines[0], spans.1))]
  {
    hide HunkRows, StackRow;
    var first := OneAdded(diff, 0, FIRST_ADDED.lines[0]);
    var second := OneAdded(diff, 1, SECOND_ADDED.lines[0]);
    spans := (first, second);
    NoGaps();
    var gaps := GapsOf(ADDED, None);
    assert HunkSections(ADDED, StackLayout, false, diff, None, gaps, 0) == [];
    assert HunkSections(ADDED, StackLayout, false, diff, None, gaps, 1)
      == [Line(StackRow("f", 0, FIRST_ADDED.lines[0], first))];
  }

  lemma NoGaps()
    ensures GapsOf(ADDED, None) == []
  {
    var hunks := ADDED.hunks;
    assert hunks[..0] == [] && hunks[..1] == [FIRST_ADDED] && [FIRST_ADDED][..0] == [];
    assert GapBefore("f", hunks, 0).None? && GapBefore("f", hunks, 1).None?;
    hide GapBefore, CursorsAfter;
    GapsBeforeStep("f", hunks, 0);
    GapsBeforeStep("f", hunks, 1);
  }

  lemma TwoAccepted(a: Row, b: Row)
    requires a.Key().fileId == b.Key().fileId == "f"
    requires SelectedLine(StackLayout, New, a) == Ok((New, Some(1)))
      && SelectedLine(StackLayout, New, b) == Ok((New, Some(2)))
    ensures Selection([ADDED], StackLayout, New, [a, b]).Ok?
    ensures Selection([ADDED], StackLayout, New, [a, b]).value.0 == InlineTarget("f", New, 1, 2)
  {
    hide SelectedLine, OverlappingHunk;
    hide Collected;
    OneCollected(StackLayout, New, a, New, 1);
    assert [a, b][..1] == [a] && [a, b][..2] == [a, b];
    CollectedStep(StackLayout, New, [a, b], 1);
    assert [1] + [2] == [1, 2];
    assert [1, 2][..1] == [1];
    assert Dedup([1, 2]) == [1, 2];
  }

  // ---- The rows of a hunk -----------------------------------------------------------------

  /** Any rows picked from those a hunk is laid out in, split or stacked, are rows of that hunk. */
  lemma LaidOutRowsAreOfHunk(layout: Layout, focused: Side, diff: Differ, fileId: string, hunkIndex: nat, hunk: Hunk,
                             rows: seq<Row>)
    requires SoundDiffer(diff)
    requires forall i :: 0 <= i < |rows| ==> rows[i] in Lift(HunkRows(layout, diff, fileId, hunkIndex, hunk.lines))
    ensures RowsOfHunk(layout, focused, rows, hunk)
  {
    hide HunkRows, SideCells, SideLines, Shows, SelectedLine;
    var laid := HunkRows(layout, diff, fileId, hunkIndex, hunk.lines);
    forall i | 0 <= i < |rows|
      ensures var line := SelectedLine(layout, focused, rows[i]);
        line.Ok? && line.value.1.Some? ==> HasNumber(hunk, line.value.0, line.value.1.value)
    {
      var line := SelectedLine(layout, focused, rows[i]);
      var k :| 0 <= k < |laid| && Line(laid[k]) == rows[i];
      if line.Ok? && line.value.1.Some? {
        var cell := SelectedCell(layout, focused, laid[k], line.value.0, line.value.1.value);
        LaidOutNumber(layout, diff, fileId, hunkIndex, hunk, k, line.value.0, cell);
      }
    }
  }

  lemma SelectedCell(layout: Layout, focused: Side, row: LineRow, side: Side, number: nat) returns (cell: ReviewCell)
    requires SelectedLine(layout, focused, Line(row)) == Ok((side, Some(number)))
    ensures cell in RowCells(row, side) && (if side == Old then cell.oldLine else cell.newLine) == Some(number)
  {
    cell := if row.Stack? then row.cell else if side == Old then row.left else row.right;
  }

  lemma LaidOutNumber(layout: Layout, diff: Differ, fileId: string, hunkIndex: nat, hunk: Hunk, k: nat, side: Side,
                      cell: ReviewCell)
    requires SoundDiffer(diff) && k < |HunkRows(layout, diff, fileId, hunkIndex, hunk.lines)|
    requires cell in RowCells(HunkRows(layout, diff, fileId, hunkIndex, hunk.lines)[k], side)
    requires (if side == Old then cell.oldLine else cell.newLine).Some?
    ensures HasNumber(hunk, side, (if side == Old then cell.oldLine else cell.newLine).value)
  {
    hide HunkRows, RowCells;
    var line := LineOfCell(layout, diff, fileId, hunkIndex, hunk.lines, side, k, cell);
  }

  // ---- Placing everything -----------------------------------------------------------------

  function CountPlaced(files: seq<DiffFile>, threads: seq<Thread>, id: string): nat {
    if threads == [] then 0 else
      var placed := PlaceThread(files, threads[|threads| - 1]);
      CountPlaced(files, threads[..|threads| - 1], id)
        + (if placed.Ok? && placed.value.target.fileId == id then 1 else 0)
  }

  /** Every thread ends up once: under the file it was placed in, or among the unplaced, in the order given. */
  lemma {:induction false} EveryThreadOnce(files: seq<DiffFile>, threads: seq<Thread>, n: nat)
    requires n < |threads|
    ensures var p := PlaceAll(files, threads);
      match PlaceThread(files, threads[n])
      case Ok(placed) =>
        var id := placed.target.fileId;
        && id in p.byFile && |p.byFile[id]| == CountPlaced(files, threads, id)
        && CountPlaced(files, threads[..n], id) < |p.byFile[id]|
        && p.byFile[id][CountPlaced(files, threads[..n], id)] == placed
      case Err(reason) => (threads[n], reason) in p.unplaced
  {
    hide PlaceThread;
    var front, last := threads[..|threads| - 1], |threads| - 1;
    if n < last {
      EveryThreadOnce(files, front, n);
      assert front[..n] == threads[..n];
    } else {
      assert threads[..n] == front;
      match PlaceThread(files, threads[n]) {
        case Ok(placed) => PlacedCount(files, front, placed.target.fileId);
        case Err(reason) =>
          var before := PlaceAll(files, front).unplaced;
          assert (before + [(threads[n], reason)])[|before|] == (threads[n], reason);
      }
    }
  }

  lemma {:induction false} PlacedCount(files: seq<DiffFile>, threads: seq<Thread>, id: string)
    ensures var p := PlaceAll(files, threads);
      CountPlaced(files, threads, id) == if id in p.byFile then |p.byFile[id]| else 0
  {
    hide PlaceThread;
    if threads != [] { PlacedCount(files, threads[..|threads| - 1], id); }
  }

  // ---- Which selections are accepted ------------------------------------------------------

  /** Row i has a line on the side of the first row. */
  ghost predicate Takes(layout: Layout, focused: Side, rows: seq<Row>, i: nat) {
    i < |rows| &&
    var first, line := SelectedLine(layout, focused, rows[0]), SelectedLine(layout, focused, rows[i]);
    first.Ok? && line.Ok? && line.value.0 == first.value.0 && line.value.1.Some?
  }

  /** What is wrong with row i when those above it are right. */
  function Problem(layout: Layout, focused: Side, rows: seq<Row>, i: nat): TargetError
    requires i < |rows|
  {
    var first, line := SelectedLine(layout, focused, rows[0]), SelectedLine(layout, focused, rows[i]);
    if line.Err? then line.error
    else if first.Ok? && line.value.0 != first.value.0 then CrossSide else EmptySide(line.value.0)
  }

  function LineAt(layout: Layout, focused: Side, rows: seq<Row>, i: nat): nat
    requires Takes(layout, focused, rows, i)
  {
    SelectedLine(layout, focused, rows[i]).value.1.value
  }

  lemma {:induction false} TakenAreCollected(layout: Layout, focused: Side, rows: seq<Row>, n: nat)
    requires n <= |rows| && forall j: nat :: j < n ==> Takes(layout, focused, rows, j)
    ensures var collected := Collected(layout, focused, rows[..n]);
      && collected.Ok? && |collected.value.1| == n
      && (n > 0 ==>
        Takes(layout, focused, rows, 0) && collected.value.0 == Some(SelectedLine(layout, focused, rows[0]).value.0))
      && (n == 0 ==> collected.value.0 == None)
      && forall j: nat :: j < n ==> collected.value.1[j] == LineAt(layout, focused, rows, j)
  {
    hide SelectedLine, Collected;
    if n == 0 {
      NothingCollected(layout, focused);
      assert rows[..0] == [];
    } else {
      TakenAreCollected(layout, focused, rows, n - 1);
      assert Takes(layout, focused, rows, n - 1);
      CollectedStep(layout, focused, rows, n - 1);
    }
  }

  lemma FirstProblem(layout: Layout, focused: Side, rows: seq<Row>, i: nat)
    requires i < |rows| && !Takes(layout, focused, rows, i)
    requires forall j: nat :: j < i ==> Takes(layout, focused, rows, j)
    ensures Collected(layout, focused, rows) == Err(Problem(layout, focused, rows, i))
  {
    hide SelectedLine, Collected;
    TakenAreCollected(layout, focused, rows, i);
    CollectedStep(layout, focused, rows, i);
    ErrorStays(layout, focused, rows, i + 1);
    if i > 0 { assert Takes(layout, focused, rows, 0); }
  }

  lemma {:induction false} FirstBad(layout: Layout, focused: Side, rows: seq<Row>, n: nat) returns (i: nat)
    requires n <= |rows|
    ensures i <= n && (i < n ==> !Takes(layout, focused, rows, i))
    ensures forall j: nat :: j < i ==> Takes(layout, focused, rows, j)
  {
    hide Takes;
    i := 0;
    if n > 0 {
      i := FirstBad(layout, focused, rows, n - 1);
      if i == n - 1 && Takes(layout, focused, rows, i) { i := n; }
    }
  }

  ghost predicate OneSteps(lines: seq<nat>) {
    forall i :: 0 < i < |lines| ==> lines[i] == lines[i - 1] || lines[i] == lines[i - 1] + 1
  }

  lemma StepsPush(lines: seq<nat>, last: nat)
    requires lines != []
    ensures OneSteps(lines + [last]) <==>
      OneSteps(lines) && (last == lines[|lines| - 1] || last == lines[|lines| - 1] + 1)
  {
    var all := lines + [last];
    assert forall i :: 0 <= i < |lines| ==> all[i] == lines[i];
    assert all[|lines|] == last;
  }

  lemma ConsecutivePush(lines: seq<nat>, last: nat)
    requires lines != []
    ensures Consecutive(lines + [last]) <==> Consecutive(lines) && last == lines[|lines| - 1] + 1
  {
    var all := lines + [last];
    assert forall i :: 0 <= i < |lines| ==> all[i] == lines[i];
    assert all[|lines|] == last;
    if Consecutive(all) {
      forall i | 0 <= i < |lines| - 1 ensures lines[i + 1] == lines[i] + 1 { assert all[i + 1] == all[i] + 1; }
      assert all[|lines| - 1 + 1] == all[|lines| - 1] + 1;
    }
  }

  lemma {:induction false} ConsecutiveIff(lines: seq<nat>)
    ensures Consecutive(Dedup(lines)) <==> OneSteps(lines)
  {
    if |lines| >= 2 {
      hide Consecutive, OneSteps;
      var front, last := lines[..|lines| - 1], lines[|lines| - 1];
      ConsecutiveIff(front);
      DedupKeeps(front);
      assert lines == front + [last] && front[|front| - 1] == lines[|lines| - 2];
      StepsPush(front, last);
      ConsecutivePush(Dedup(front), last);
    }
  }

  /** Row i is the first that cannot be commented on with those above it. */
  ghost predicate IsFirstBad(layout: Layout, focused: Side, rows: seq<Row>, i: nat) {
    i < |rows| && !Takes(layout, focused, rows, i) && forall j: nat :: j < i ==> Takes(layout, focused, rows, j)
  }

  ghost predicate AllTake(layout: Layout, focused: Side, rows: seq<Row>) {
    forall i: nat :: i < |rows| ==> Takes(layout, focused, rows, i)
  }

  /** Each row is on the line of the row above it or the next one. */
  ghost predicate InSteps(layout: Layout, focused: Side, rows: seq<Row>)
    requires AllTake(layout, focused, rows)
  {
    forall i: nat :: 0 < i < |rows| ==>
      var above, line := LineAt(layout, focused, rows, i - 1), LineAt(layout, focused, rows, i);
      line == above || line == above + 1
  }

  predicate OneFile(rows: seq<Row>) {
    forall i :: 0 <= i < |rows| ==> rows[i].Key().fileId == rows[0].Key().fileId
  }

  ghost predicate HasFile(files: seq<DiffFile>, id: string) { exists f :: f in files && f.id == id }

  lemma SelectionOfLines(files: seq<DiffFile>, layout: Layout, focused: Side, rows: seq<Row>)
    requires rows != [] && OneFile(rows) && AllTake(layout, focused, rows)
    ensures Takes(layout, focused, rows, 0)
    ensures var selection := Selection(files, layout, focused, rows);
      if !InSteps(layout, focused, rows) then
        selection == Err(Discontinuous(SelectedLine(layout, focused, rows[0]).value.0))
      else if HasFile(files, rows[0].Key().fileId) then selection.Ok? else selection == Err(NoDiffLine)
  {
    hide SelectedLine, Collected, Dedup, Consecutive, ResolveRangesTarget, Takes;
    TakenAreCollected(layout, focused, rows, |rows|);
    assert rows[..|rows|] == rows;
    var lines := Collected(layout, focused, rows).value.1;
    ConsecutiveIff(lines);
    assert OneSteps(lines) <==> InSteps(layout, focused, rows);
    FoundFile(files, rows[0].Key().fileId);
    NoFile(files, rows[0].Key().fileId);
  }

  /**
   * A selection is accepted exactly when its rows are of one file that is there, all have a line on one side, and go
   * down line by line; otherwise it is refused for the first of these that fails, at the first row where it does.
   */
  lemma SelectionIs(files: seq<DiffFile>, layout: Layout, focused: Side, rows: seq<Row>)
    ensures var selection := Selection(files, layout, focused, rows);
      if rows == [] then selection == Err(NoDiffLine)
      else if !OneFile(rows) then selection == Err(CrossFile)
      else if !AllTake(layout, focused, rows) then
        exists i: nat :: IsFirstBad(layout, focused, rows, i) && selection == Err(Problem(layout, focused, rows, i))
      else if !InSteps(layout, focused, rows) then
        Takes(layout, focused, rows, 0)
        && selection == Err(Discontinuous(SelectedLine(layout, focused, rows[0]).value.0))
      else if HasFile(files, rows[0].Key().fileId) then selection.Ok? else selection == Err(NoDiffLine)
  {
    hide Takes, SelectedLine, Collected, Dedup, Consecutive, ResolveRangesTarget, InSteps, HasFile, Problem;
    if rows != [] && OneFile(rows) {
      var i := FirstBad(layout, focused, rows, |rows|);
      if i < |rows| {
        FirstProblem(layout, focused, rows, i);
        assert IsFirstBad(layout, focused, rows, i);
      } else {
        SelectionOfLines(files, layout, focused, rows);
        hide Selection;
      }
    }
  }

  lemma {:induction false} NoFile(files: seq<DiffFile>, id: string)
    ensures FileById(files, id).None? ==> forall f :: f in files ==> f.id != id
  {
    if files != [] { NoFile(files[1..], id); }
  }
}
