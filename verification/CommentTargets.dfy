/** Selecting diff lines for a published comment, and placing the comment's thread when it comes back. */
module CommentTargets {
  import opened DiffModel
  import opened Context
  import opened Rows
  import opened Plan

  datatype InlineTarget = InlineTarget(path: string, side: Side, start: nat, end: nat)

  datatype TargetError = NoDiffLine | CrossFile | CrossSide | EmptySide(side: Side) | Discontinuous(side: Side)

  // ---- From rows to a target --------------------------------------------------------------

  /** The side a row is commented on, and its line there, if it has one. */
  function SelectedLine(layout: Layout, focused: Side, row: Row): Result<(Side, Option<nat>), TargetError> {
    match row
    case Line(Split(_, left, right)) =>
      if layout != SplitLayout then Err(NoDiffLine)
      else if focused == Old then Ok((Old, if left.kind != EmptyCell then left.oldLine else None))
      else Ok((New, if right.kind != EmptyCell then right.newLine else None))
    case Line(Stack(_, cell)) =>
      if layout != StackLayout then Err(NoDiffLine)
      else (match cell.kind
        case EmptyCell => Err(NoDiffLine)
        case DeletionCell => Ok((Old, cell.oldLine))
        case _ => Ok((New, cell.newLine)))
    case _ => Err(NoDiffLine)
  }

  /** One side and its lines so far; the first row that cannot be commented on decides the error. */
  function Collected(layout: Layout, focused: Side, rows: seq<Row>): Result<(Option<Side>, seq<nat>), TargetError> {
    if rows == [] then Ok((None, [])) else
      var before, line := Collected(layout, focused, rows[..|rows| - 1]),
        SelectedLine(layout, focused, rows[|rows| - 1]);
      if before.Err? then before
      else if line.Err? then Err(line.error)
      else if before.value.0.Some? && before.value.0.value != line.value.0 then Err(CrossSide)
      else if line.value.1.None? then Err(EmptySide(line.value.0))
      else Ok((Some(line.value.0), before.value.1 + [line.value.1.value]))
  }

  function Dedup(lines: seq<nat>): seq<nat> {
    if |lines| < 2 then lines
    else if lines[|lines| - 1] == lines[|lines| - 2] then Dedup(lines[..|lines| - 1])
    else Dedup(lines[..|lines| - 1]) + [lines[|lines| - 1]]
  }

  predicate Consecutive(lines: seq<nat>) {
    forall i :: 0 <= i < |lines| - 1 ==> lines[i + 1] == lines[i] + 1
  }

  /** From the least to the greatest line number of a hunk on a side. */
  function HunkRange(lines: seq<DiffLine>, side: Side): Option<LineRange> {
    if lines == [] then None else
      var before, number := HunkRange(lines[..|lines| - 1], side), NumberOn(lines[|lines| - 1], side);
      if number.None? then before
      else if before.None? then Some(LineRange(number.value, number.value))
      else Some(LineRange(if number.value < before.value.start then number.value else before.value.start,
                          if number.value > before.value.end then number.value else before.value.end))
  }

  predicate Overlaps(a: LineRange, b: LineRange) { a.start <= b.end && b.start <= a.end }

  predicate RangeMeets(range: Option<LineRange>, hunk: Hunk, side: Side) {
    range.Some? && HunkRange(hunk.lines, side).Some? && Overlaps(range.value, HunkRange(hunk.lines, side).value)
  }

  /** The first hunk either range overlaps. */
  function OverlappingHunk(hunks: seq<Hunk>, oldRange: Option<LineRange>, newRange: Option<LineRange>,
                           k: nat): Option<nat>
    requires k <= |hunks|
    decreases |hunks| - k
  {
    if k == |hunks| then None
    else if RangeMeets(newRange, hunks[k], New) || RangeMeets(oldRange, hunks[k], Old) then Some(k)
    else OverlappingHunk(hunks, oldRange, newRange, k + 1)
  }

  function ResolveRangesTarget(file: DiffFile, oldRange: Option<LineRange>, newRange: Option<LineRange>): NoteTarget {
    NoteTarget(file.id, oldRange, newRange, OverlappingHunk(file.hunks, oldRange, newRange, 0),
      if newRange.Some? then Some(New) else if oldRange.Some? then Some(Old) else None,
      if newRange.Some? then Some(newRange.value.start) else if oldRange.Some? then Some(oldRange.value.start)
        else None)
  }

  /** Walks the selected rows; the first that cannot be commented on ends the walk. */
  method CollectLines(layout: Layout, focused: Side, rows: seq<Row>)
    returns (result: Result<(Option<Side>, seq<nat>), TargetError>)
    ensures result == Collected(layout, focused, rows)
  {
    hide SelectedLine, Collected;
    var side: Option<Side>, lines: seq<nat> := None, [];
    NothingCollected(layout, focused);
    for i := 0 to |rows|
      invariant Collected(layout, focused, rows[..i]) == Ok((side, lines))
    {
      CollectedStep(layout, focused, rows, i);
      ErrorStays(layout, focused, rows, i + 1);
      var line := SelectedLine(layout, focused, rows[i]);
      if line.Err? {
        return Err(line.error);
      }
      if side.Some? && side.value != line.value.0 {
        return Err(CrossSide);
      }
      side := Some(line.value.0);
      if line.value.1.None? {
        return Err(EmptySide(line.value.0));
      }
      lines := lines + [line.value.1.value];
    }
    assert rows[..|rows|] == rows;
    result := Ok((side, lines));
  }

  /** Resolves the selected rows of the geometry to the lines a published comment is about. */
  method ResolveSelection(files: seq<DiffFile>, layout: Layout, focused: Side, rows: seq<Row>)
    returns (result: Result<(InlineTarget, NoteTarget), TargetError>)
    ensures result == Selection(files, layout, focused, rows)
  {
    hide Collected, Dedup, Consecutive, FileById, ResolveRangesTarget, SelectedLine;
    if rows == [] {
      return Err(NoDiffLine);
    }
    var fileId := rows[0].Key().fileId;
    if exists i :: 0 <= i < |rows| && rows[i].Key().fileId != fileId {
      return Err(CrossFile);
    }
    var collected := CollectLines(layout, focused, rows);
    if collected.Err? {
      return Err(collected.error);
    }
    CollectedLines(layout, focused, rows);
    var side, lines := collected.value.0.value, Dedup(collected.value.1);
    if !Consecutive(lines) {
      return Err(Discontinuous(side));
    }
    var file := FileById(files, fileId);
    if file.None? {
      return Err(NoDiffLine);
    }
    var range := LineRange(lines[0], lines[|lines| - 1]);
    var target := if side == Old then ResolveRangesTarget(file.value, Some(range), None)
                  else ResolveRangesTarget(file.value, None, Some(range));
    result := Ok((InlineTarget(file.value.path, side, range.start, range.end), target));
  }

  function Selection(files: seq<DiffFile>, layout: Layout, focused: Side,
                     rows: seq<Row>): Result<(InlineTarget, NoteTarget), TargetError> {
    if rows == [] then Err(NoDiffLine)
    else if exists i :: 0 <= i < |rows| && rows[i].Key().fileId != rows[0].Key().fileId then Err(CrossFile)
    else
      var collected := Collected(layout, focused, rows);
      if collected.Err? then Err(collected.error) else
        CollectedLines(layout, focused, rows);
        var side, lines := collected.value.0.value, Dedup(collected.value.1);
        if !Consecutive(lines) then Err(Discontinuous(side)) else
          var file := FileById(files, rows[0].Key().fileId);
          if file.None? then Err(NoDiffLine) else
            var range := LineRange(lines[0], lines[|lines| - 1]);
            Ok((InlineTarget(file.value.path, side, range.start, range.end),
                if side == Old then ResolveRangesTarget(file.value, Some(range), None)
                else ResolveRangesTarget(file.value, None, Some(range))))
  }

  lemma NothingCollected(layout: Layout, focused: Side)
    ensures Collected(layout, focused, []) == Ok((None, []))
  {
  }

  lemma CollectedStep(layout: Layout, focused: Side, rows: seq<Row>, i: nat)
    requires i < |rows| && Collected(layout, focused, rows[..i]).Ok?
    ensures var (side, lines) := Collected(layout, focused, rows[..i]).value;
      var line := SelectedLine(layout, focused, rows[i]);
      Collected(layout, focused, rows[..i + 1]) ==
        if line.Err? then Err(line.error)
        else if side.Some? && side.value != line.value.0 then Err(CrossSide)
        else if line.value.1.None? then Err(EmptySide(line.value.0))
        else Ok((Some(line.value.0), lines + [line.value.1.value]))
  {
    assert rows[..i + 1][..i] == rows[..i];
  }

  lemma {:induction false} ErrorStays(layout: Layout, focused: Side, rows: seq<Row>, n: nat)
    requires n <= |rows|
    ensures Collected(layout, focused, rows[..n]).Err? ==>
      Collected(layout, focused, rows) == Collected(layout, focused, rows[..n])
    decreases |rows|
  {
    hide SelectedLine;
    if n == |rows| {
      assert rows[..n] == rows;
    } else {
      assert rows[..|rows| - 1][..n] == rows[..n];
      ErrorStays(layout, focused, rows[..|rows| - 1], n);
    }
  }

  /** Each row has a line on the side, these lines in order. */
  ghost predicate LinesOf(layout: Layout, focused: Side, rows: seq<Row>, side: Option<Side>, lines: seq<nat>) {
    && |lines| == |rows| && (rows != [] ==> side.Some?)
    && forall i :: 0 <= i < |rows| ==> SelectedLine(layout, focused, rows[i]) == Ok((side.value, Some(lines[i])))
  }

  /** Accepted rows are all on one side, each with a line there. */
  lemma {:induction false} CollectedLines(layout: Layout, focused: Side, rows: seq<Row>)
    requires Collected(layout, focused, rows).Ok?
    ensures LinesOf(layout, focused, rows, Collected(layout, focused, rows).value.0,
      Collected(layout, focused, rows).value.1)
    ensures rows != [] ==> Dedup(Collected(layout, focused, rows).value.1) != []
  {
    hide *;
    if rows == [] {
      NothingCollected(layout, focused);
      NoLines(layout, focused);
    } else {
      var front := rows[..|rows| - 1];
      CollectedPush(layout, focused, rows);
      CollectedLines(layout, focused, front);
      var before, all := Collected(layout, focused, front).value, Collected(layout, focused, rows).value;
      OneMoreLine(layout, focused, rows, before.0, before.1, all.0, all.1);
      DedupSome(all.1);
    }
  }

  lemma NoLines(layout: Layout, focused: Side)
    ensures LinesOf(layout, focused, [], None, [])
  {
  }

  lemma CollectedPush(layout: Layout, focused: Side, rows: seq<Row>)
    requires rows != [] && Collected(layout, focused, rows).Ok?
    ensures var (side, lines) := Collected(layout, focused, rows).value;
      var before := Collected(layout, focused, rows[..|rows| - 1]);
      && before.Ok? && side.Some? && lines != [] && before.value.1 == lines[..|lines| - 1]
      && (before.value.0.Some? ==> before.value.0 == side)
      && SelectedLine(layout, focused, rows[|rows| - 1]) == Ok((side.value, Some(lines[|lines| - 1])))
  {
    hide SelectedLine;
    var front := Collected(layout, focused, rows[..|rows| - 1]);
    var lines := Collected(layout, focused, rows).value.1;
    assert front.Ok? && lines[..|lines| - 1] == front.value.1;
  }

  lemma OneMoreLine(layout: Layout, focused: Side, rows: seq<Row>, side: Option<Side>, lines: seq<nat>,
                    after: Option<Side>, all: seq<nat>)
    requires rows != [] && LinesOf(layout, focused, rows[..|rows| - 1], side, lines)
    requires after.Some? && (side.Some? ==> side == after) && all != [] && lines == all[..|all| - 1]
    requires SelectedLine(layout, focused, rows[|rows| - 1]) == Ok((after.value, Some(all[|all| - 1])))
    ensures LinesOf(layout, focused, rows, after, all)
  {
    hide SelectedLine;
    var front := rows[..|rows| - 1];
    forall i | 0 <= i < |rows| ensures SelectedLine(layout, focused, rows[i]) == Ok((after.value, Some(all[i]))) {
      if i < |front| { assert front[i] == rows[i] && lines[i] == all[i]; }
    }
  }

  lemma {:induction false} DedupSome(lines: seq<nat>)
    ensures lines != [] ==> Dedup(lines) != []
  {
    if |lines| >= 2 { DedupSome(lines[..|lines| - 1]); }
  }

  // ---- Threads ----------------------------------------------------------------------------

  datatype Subject = FileSubject | Unsupported(subject: string)
                   | LineSubject(side: Option<Side>, startSide: Option<Side>, startLine: Option<nat>,
                     endLine: Option<nat>)

  datatype Thread = Thread(path: string, subject: Subject)

  datatype Misplaced = NoFile | BadSubject(subject: string) | NoSide | TwoSides | NoEnd | Backwards
                     | NoHunk(side: Side, start: nat, end: nat)

  datatype Placed = Placed(thread: Thread, target: NoteTarget, fileLevel: bool)

  function FindPath(files: seq<DiffFile>, path: string): Option<DiffFile> {
    if files == [] then None else if files[0].path == path then Some(files[0]) else FindPath(files[1..], path)
  }

  function FindPreviousPath(files: seq<DiffFile>, path: string): Option<DiffFile> {
    if files == [] then None
    else if files[0].previousPath == Some(path) then Some(files[0]) else FindPreviousPath(files[1..], path)
  }

  predicate HasNumber(hunk: Hunk, side: Side, number: nat) {
    exists i :: 0 <= i < |hunk.lines| && NumberOn(hunk.lines[i], side) == Some(number)
  }

  predicate HoldsRange(hunk: Hunk, side: Side, start: nat, end: nat) {
    forall number :: start <= number <= end ==> HasNumber(hunk, side, number)
  }

  /** The first hunk that holds every line of a range. */
  function HoldingHunk(hunks: seq<Hunk>, side: Side, start: nat, end: nat, k: nat): Option<nat>
    requires k <= |hunks|
    decreases |hunks| - k
  {
    if k == |hunks| then None
    else if HoldsRange(hunks[k], side, start, end) then Some(k)
    else HoldingHunk(hunks, side, start, end, k + 1)
  }

  function PlaceThread(files: seq<DiffFile>, thread: Thread): Result<Placed, Misplaced> {
    var file := if FindPath(files, thread.path).Some? then FindPath(files, thread.path)
      else FindPreviousPath(files, thread.path);
    if file.None? then Err(NoFile) else
      match thread.subject
      case FileSubject => Ok(Placed(thread, NoteTarget(file.value.id, None, None, None, None, None), true))
      case Unsupported(subject) => Err(BadSubject(subject))
      case LineSubject(side, startSide, startLine, endLine) =>
        if side.None? then Err(NoSide)
        else if startSide.Some? && startSide != side then Err(TwoSides)
        else if endLine.None? then Err(NoEnd)
        else
          var end := endLine.value;
          var start := if startLine.Some? then startLine.value else end;
          if start > end then Err(Backwards) else
            var hunk := HoldingHunk(file.value.hunks, side.value, start, end, 0);
            if hunk.None? then Err(NoHunk(side.value, start, end)) else
              var range := Some(LineRange(start, end));
              Ok(Placed(thread, NoteTarget(file.value.id, if side.value == Old then range else None,
                if side.value == New then range else None, hunk, side, Some(end)), false))
  }

  /** Threads by the file they were placed in, in order, and those that could not be placed. */
  datatype Placement = Placement(byFile: map<string, seq<Placed>>, unplaced: seq<(Thread, Misplaced)>)

  function PlaceOne(files: seq<DiffFile>, p: Placement, thread: Thread): Placement {
    match PlaceThread(files, thread)
    case Ok(placed) =>
      var id := placed.target.fileId;
      p.(byFile := p.byFile[id := (if id in p.byFile then p.byFile[id] else []) + [placed]])
    case Err(reason) => p.(unplaced := p.unplaced + [(thread, reason)])
  }

  function PlaceAll(files: seq<DiffFile>, threads: seq<Thread>): Placement {
    if threads == [] then Placement(map[], [])
    else PlaceOne(files, PlaceAll(files, threads[..|threads| - 1]), threads[|threads| - 1])
  }

  method PlaceGithubThreads(files: seq<DiffFile>, threads: seq<Thread>) returns (placement: Placement)
    ensures placement == PlaceAll(files, threads)
  {
    var byFile: map<string, seq<Placed>>, unplaced := map[], [];
    for i := 0 to |threads|
      invariant Placement(byFile, unplaced) == PlaceAll(files, threads[..i])
    {
      hide PlaceThread;
      assert threads[..i + 1][..i] == threads[..i];
      match PlaceThread(files, threads[i]) {
        case Ok(placed) =>
          var id := placed.target.fileId;
          byFile := byFile[id := (if id in byFile then byFile[id] else []) + [placed]];
        case Err(reason) =>
          unplaced := unplaced + [(threads[i], reason)];
      }
    }
    assert threads[..|threads|] == threads;
    placement := Placement(byFile, unplaced);
  }
}
