/** Why the controller's cache stays right, even on the one path that changes an input without rebuilding. */
module ControllerProofs {
  import opened Text
  import opened DiffModel
  import opened Emphasis
  import opened Context
  import opened Rows
  import opened Plan
  import opened Notes
  import opened Geometry
  import opened GeometryProofs
  import opened Anchor
  import opened ControllerModel

  // ---- Loading a source that brings no gap ------------------------------------------------

  /** Before: no source yet, so nothing expanded. After: a source, and no gap after the last hunk. */
  ghost predicate QuietLoad(file: DiffFile, before: Option<FileContext>, after: FileContext) {
    && (before.Some? ==> before.value.source.None? && before.value.expanded == {})
    && after.expanded == {}
    && FindTrailing(GapsOf(file, Some(after))).None?
  }

  lemma GapCountsAgree(fileId: string, hunks: seq<Hunk>, k: nat)
    requires k < |hunks| && GapBefore(fileId, hunks, k).Some?
    ensures var gap := GapBefore(fileId, hunks, k).value; gap.LineCount(Old) == gap.LineCount(New)
  {
    hide CursorsAfter;
  }

  lemma GapRowsAgree(file: DiffFile, layout: Layout, before: Option<FileContext>, after: FileContext, k: nat)
    requires QuietLoad(file, before, after) && k < |file.hunks|
    ensures var gap := GapBefore(file.id, file.hunks, k);
      OptionalGapRows(file.id, layout, before, gap) == OptionalGapRows(file.id, layout, Some(after), gap)
  {
    hide GapBefore;
    var gap := GapBefore(file.id, file.hunks, k);
    if gap.Some? { GapCountsAgree(file.id, file.hunks, k); }
  }

  lemma {:induction false} SectionsAgree(file: DiffFile, layout: Layout, headers: bool, diff: Differ,
                                         before: Option<FileContext>, after: FileContext, n: nat)
    requires QuietLoad(file, before, after) && n <= |file.hunks|
    ensures HunkSections(file, layout, headers, diff, before, GapsOf(file, before), n)
         == HunkSections(file, layout, headers, diff, Some(after), GapsOf(file, Some(after)), n)
  {
    hide OptionalGapRows, HunkRows, HeaderRows, CollapsedGaps, QuietLoad;
    if n > 0 {
      SectionsAgree(file, layout, headers, diff, before, after, n - 1);
      FoundBefore(file, before, n - 1);
      FoundBefore(file, Some(after), n - 1);
      GapRowsAgree(file, layout, before, after, n - 1);
    }
  }

  lemma FoundBefore(file: DiffFile, context: Option<FileContext>, k: nat)
    requires k < |file.hunks|
    ensures FindBefore(GapsOf(file, context), k) == GapBefore(file.id, file.hunks, k)
  {
    hide CollapsedGaps;
    FindInCollapsed(file.id, file.hunks, if context.Some? then SourceLength(context.value) else None, k);
  }

  /** Reading a source that adds no trailing gap leaves the plan as it was, line for line. */
  lemma PlanUnchanged(file: DiffFile, layout: Layout, headers: bool, diff: Differ, before: Option<FileContext>,
                      after: FileContext)
    requires QuietLoad(file, before, after)
    ensures PlanWithContext(file, layout, headers, diff, before)
      == PlanWithContext(file, layout, headers, diff, Some(after))
  {
    hide HunkSections, CollapsedGaps, Anchors, LargestInHunks;
    if file.hunks != [] {
      SectionsAgree(file, layout, headers, diff, before, after, |file.hunks|);
      NoTrailing(file, before);
    }
  }

  lemma NoTrailing(file: DiffFile, before: Option<FileContext>)
    requires before.Some? ==> before.value.source.None?
    ensures FindTrailing(GapsOf(file, before)).None?
  {
    hide CollapsedGaps;
    if file.hunks != [] {
      FindInCollapsed(file.id, file.hunks, None, 0);
    } else {
      NoHunksNoGaps(file.id);
    }
  }

  lemma NoHunksNoGaps(fileId: string)
    ensures CollapsedGaps(fileId, [], None) == []
  {
  }

  lemma {:induction false} FileIsById(files: seq<DiffFile>, file: DiffFile)
    requires file in files && DistinctFiles(files)
    ensures FileById(files, file.id) == Some(file)
  {
    if files[0] != file {
      var j :| 0 < j < |files| && files[j] == file;
      assert files[0].id != files[j].id;
      FileIsById(files[1..], file);
    }
  }

  lemma {:induction false} VisibleAreFiles(env: Env, files: seq<DiffFile>, filter: string)
    ensures forall file :: file in VisibleFiles(env, files, filter) ==> file in files && env.matches(file, filter)
  {
    if files != [] { VisibleAreFiles(env, files[..|files| - 1], filter); }
  }

  lemma {:induction false} PlansUnchanged(env: Env, inputs: Inputs, shape: Shape, visible: seq<DiffFile>,
                                          file: DiffFile, after: FileContext)
    requires forall f :: f in visible && f.id == file.id ==> f == file
    requires QuietLoad(file, ContextOf(inputs, file.id), after)
    ensures PlannedAll(env, inputs.(contexts := inputs.contexts[file.id := after]), shape, visible)
         == PlannedAll(env, inputs, shape, visible)
  {
    if visible != [] {
      hide PlannedOf, QuietLoad;
      PlansUnchanged(env, inputs, shape, visible[..|visible| - 1], file, after);
      PlannedUnchanged(env, inputs, shape, visible[|visible| - 1], file, after);
    }
  }

  lemma PlannedUnchanged(env: Env, inputs: Inputs, shape: Shape, f: DiffFile, file: DiffFile, after: FileContext)
    requires f.id == file.id ==> f == file
    requires QuietLoad(file, ContextOf(inputs, file.id), after)
    ensures PlannedOf(env, inputs.(contexts := inputs.contexts[file.id := after]), shape, f)
      == PlannedOf(env, inputs, shape, f)
  {
    hide PlanWithContext, WithNotes, CardsFor, QuietLoad;
    if f == file {
      PlanUnchanged(file, shape.layout, inputs.options.hunkHeaders, env.diff, ContextOf(inputs, file.id), after);
    }
  }

  /** The cache is the same before and after a quiet load. */
  lemma CacheUnchanged(env: Env, inputs: Inputs, v: Viewport, file: DiffFile, after: FileContext)
    requires DistinctFiles(inputs.files) && file in inputs.files
    requires QuietLoad(file, ContextOf(inputs, file.id), after)
    ensures CacheOf(env, inputs.(contexts := inputs.contexts[file.id := after]), v) == CacheOf(env, inputs, v)
  {
    hide PlannedAll, GeometryOf, VisibleFiles, TrailerNotes, QuietLoad;
    var visible, shape := VisibleFiles(env, inputs.files, inputs.filter), ShapeOf(inputs, v);
    VisibleAreFiles(env, inputs.files, inputs.filter);
    forall f | f in visible && f.id == file.id ensures f == file {
      FileIsById(inputs.files, f);
      FileIsById(inputs.files, file);
    }
    PlansUnchanged(env, inputs, shape, visible, file, after);
  }

  // ---- Owners -----------------------------------------------------------------------------

  lemma {:induction false} TrailerRowsAreNotes(env: Env, unplaced: seq<UnplacedThread>, filter: string, width: nat)
    ensures forall i :: 0 <= i < |TrailerNotes(env, unplaced, filter, width)| ==>
      TrailerNotes(env, unplaced, filter, width)[i].Note?
  {
    if unplaced != [] { TrailerRowsAreNotes(env, unplaced[..|unplaced| - 1], filter, width); }
  }

  /** Selectable rows belong to files: the trailer holds only notes. */
  lemma SelectableRowsHaveFiles(env: Env, inputs: Inputs, v: Viewport, i: nat)
    requires SelectableAt(CacheOf(env, inputs, v), i)
    ensures CacheOf(env, inputs, v).geometry.rows[i].owner.FileOwner?
  {
    hide GeometryOf, PlannedAll, VisibleFiles, TrailerNotes;
    TrailerRowsAreNotes(env, inputs.unplaced, inputs.filter, ShapeOf(inputs, v).contentWidth);
  }

  // ---- What a rebuild keeps ---------------------------------------------------------------

  /** A selected row that is still there, and still selectable, stays selected through a rebuild. */
  lemma SelectionSurvives(c: Cache, key: RowKey, file: Option<string>)
    requires c.geometry.rowByKey == RowIndex(c.geometry.rows)
    requires if key.kind == NoteKind then RowAt(c, key).Some?
             else key in c.geometry.rowByKey && SelectableAt(c, c.geometry.rowByKey[key])
    ensures RebuiltCursor(c, Some(key), file).key == Some(key)
  {
    hide RowIndex, SelectableAt, NearestInHunk, NearestInFile, FirstSelectable;
    if key.kind != NoteKind {
      IndexNames(c.geometry.rows, key);
      RowIsThere(c, key, c.geometry.rowByKey[key]);
    }
    SameRowCanBeSelected(c, key);
  }

  lemma RowIsThere(c: Cache, key: RowKey, i: nat)
    requires i < |c.geometry.rows| && c.geometry.rows[i].key == key
    ensures RowAt(c, key).Some?
  {
    var ok := (j: nat) => j < |c.geometry.rows| && c.geometry.rows[j].key == key;
    assert ok(i);
    assert First(|c.geometry.rows|, ok).Some?;
  }

  /** Whatever was selected before, the cursor a rebuild leaves is on a row that can be selected, if there is one. */
  lemma RebuiltCursorIsOk(env: Env, inputs: Inputs, v: Viewport, key: Option<RowKey>, file: Option<string>)
    ensures CursorOk(CacheOf(env, inputs, v), RebuiltCursor(CacheOf(env, inputs, v), key, file))
  {
    hide Reselected, SelectableAt, GeometryOf, PlannedAll, TrailerOf, VisibleFiles;
    var c := CacheOf(env, inputs, v);
    assert c.geometry.rowByKey == RowIndex(c.geometry.rows) by { IndexIsBuilt(env, inputs, v); }
    ReselectedCanBeSelected(c, key, file);
  }

  lemma IndexIsBuilt(env: Env, inputs: Inputs, v: Viewport)
    ensures var g := CacheOf(env, inputs, v).geometry; g.rowByKey == RowIndex(g.rows) && g.viewportHeight == v.height
  {
    hide FileRows, FilesBottom, TrailerRows, RowIndex, PlannedAll, TrailerOf, VisibleFiles, Sections, HunkAnchors,
      FileIndex, TrailerAt;
  }

  // ---- Order, visibility, toggling --------------------------------------------------------

  lemma {:induction false} GroupsCount(env: Env, files: seq<DiffFile>)
    ensures multiset(NonTests(env, files)) + multiset(Tests(env, files)) == multiset(files)
    ensures forall f :: f in NonTests(env, files) ==> f in files && !env.isTest(f.path)
    ensures forall f :: f in Tests(env, files) ==> f in files && env.isTest(f.path)
  {
    if files != [] {
      var front, last := files[..|files| - 1], files[|files| - 1];
      GroupsCount(env, front);
      assert files == front + [last];
    }
  }

  lemma {:induction false} GroupsAreDistinct(env: Env, files: seq<DiffFile>)
    requires DistinctFiles(files)
    ensures DistinctFiles(NonTests(env, files)) && DistinctFiles(Tests(env, files))
  {
    if files != [] {
      var front, last := files[..|files| - 1], files[|files| - 1];
      GroupsAreDistinct(env, front);
      GroupsCount(env, front);
      forall f | f in front ensures f.id != last.id {
        var i :| 0 <= i < |front| && front[i] == f;
        assert files[i].id != files[|files| - 1].id;
      }
      StillDistinct(NonTests(env, front), front, last);
      StillDistinct(Tests(env, front), front, last);
    }
  }

  lemma StillDistinct(group: seq<DiffFile>, front: seq<DiffFile>, last: DiffFile)
    requires DistinctFiles(group) && (forall f :: f in group ==> f in front) && forall f :: f in front ==>
      f.id != last.id
    ensures DistinctFiles(group + [last]) && DistinctFiles(group + [])
  {
    assert group + [] == group;
    assert forall i :: 0 <= i < |group| ==> group[i] in front;
  }

  /** Ordering test files last loses and repeats none, and puts every test file after every other. */
  lemma ArrangedKeepsFiles(env: Env, testsLast: bool, files: seq<DiffFile>)
    requires DistinctFiles(files)
    ensures var arranged := Arranged(env, testsLast, files);
      && multiset(arranged) == multiset(files) && DistinctFiles(arranged)
      && (testsLast ==> forall i, j :: 0 <= i < j < |arranged| && env.isTest(arranged[i].path) ==>
           env.isTest(arranged[j].path))
  {
    if testsLast {
      hide NonTests, Tests, DistinctFiles;
      GroupsCount(env, files);
      GroupsAreDistinct(env, files);
      JoinedAreDistinct(env, NonTests(env, files), Tests(env, files), files);
    }
  }

  lemma JoinedAreDistinct(env: Env, a: seq<DiffFile>, b: seq<DiffFile>, files: seq<DiffFile>)
    requires DistinctFiles(files) && DistinctFiles(a) && DistinctFiles(b)
    requires forall f :: f in a ==> f in files && !env.isTest(f.path)
    requires forall f :: f in b ==> f in files && env.isTest(f.path)
    ensures DistinctFiles(a + b)
  {
    forall i, j | 0 <= i < j < |a + b| ensures (a + b)[i].id != (a + b)[j].id {
      if i < |a| <= j {
        var f, g := a[i], b[j - |a|];
        var m :| 0 <= m < |files| && files[m] == f;
        var n :| 0 <= n < |files| && files[n] == g;
        assert m != n;
      }
    }
  }

  /** Bringing a row into view shows all of it, when it fits and lies in the document. */
  lemma RevealShows(bound: RowBounds, scrollTop: nat, height: nat, totalHeight: nat)
    requires 0 < bound.height <= height && bound.Bottom() <= totalHeight && scrollTop <= Monus(totalHeight, height)
    ensures var revealed := Min(Revealed(bound, scrollTop, height), Monus(totalHeight, height));
      && revealed <= bound.top && bound.Bottom() <= revealed + height
      && (scrollTop <= bound.top && bound.Bottom() <= scrollTop + height ==> revealed == scrollTop)
  {
  }

  lemma GapsStay(file: DiffFile, context: FileContext, loaded: Result<string, SourceFailure>, key: GapKey)
    requires exists i :: 0 <= i < |GapsOf(file, Some(context))| && GapsOf(file, Some(context))[i].key == key
    ensures var gaps := GapsOf(file, Some(WithSource(file, context, loaded)));
      exists i :: 0 <= i < |gaps| && gaps[i].key == key
  {
    hide GapsBefore;
    var i :| 0 <= i < |GapsOf(file, Some(context))| && GapsOf(file, Some(context))[i].key == key;
    var gaps := GapsOf(file, Some(WithSource(file, context, loaded)));
    if context.source.None? {
      assert GapsOf(file, Some(context)) == GapsBefore(file.id, file.hunks, |file.hunks|);
    }
    assert gaps[i].key == key;
  }

  /** Toggling a collapsed gap expands it, and toggling it again collapses it and nothing else. */
  lemma ToggleTwiceCollapses(file: DiffFile, contexts: map<string, FileContext>, gap: GapKey, selected: nat,
                             loaded: Result<string, SourceFailure>, again: Result<string, SourceFailure>)
    requires var context := ContextOrNew(contexts, file.id);
      && gap !in context.expanded
      && exists i :: 0 <= i < |GapsOf(file, Some(context))| && GapsOf(file, Some(context))[i].key == gap
    ensures var once := ToggleFile(file, contexts, Some(gap), selected, loaded);
      var twice := ToggleFile(file, once.contexts, Some(gap), selected, again);
      && gap in once.contexts[file.id].expanded
      && twice.result == Ok(false)
      && twice.contexts[file.id].expanded == ContextOrNew(contexts, file.id).expanded
      && twice.contexts[file.id].source == once.contexts[file.id].source
      && (forall id :: id in contexts && id != file.id ==> id in twice.contexts && twice.contexts[id] == contexts[id])
  {
    hide CollapsedGaps, SelectGapForToggle;
    GapsStay(file, ContextOrNew(contexts, file.id), loaded, gap);
  }

  // ---- The window that is drawn -----------------------------------------------------------

  /** No hunk of the diff is empty. */
  ghost predicate HunksHaveLines(files: seq<DiffFile>) {
    forall i, k :: 0 <= i < |files| && 0 <= k < |files[i].hunks| ==> files[i].hunks[k].lines != []
  }

  lemma {:induction false} PairRowsCount(diff: Differ, fileId: string, hunk: nat, dels: seq<DiffLine>,
                                         adds: seq<DiffLine>, n: nat)
    ensures |PairRows(diff, fileId, hunk, dels, adds, n)| == n
  {
    hide PairRow;
    if n > 0 { PairRowsCount(diff, fileId, hunk, dels, adds, n - 1); }
  }

  lemma HunkHasRow(layout: Layout, diff: Differ, fileId: string, hunk: nat, lines: seq<DiffLine>)
    requires lines != []
    ensures HunkRows(layout, diff, fileId, hunk, lines) != []
  {
    hide PairRows, SplitRows, StackRows, ContextRow, StackRow;
    SplitRowsFrom(diff, fileId, hunk, lines, 0);
    StackRowsFrom(diff, fileId, hunk, lines, 0);
    if lines[0].kind != Context {
      var block := lines[0..BlockEnd(lines, 1)];
      BlockSides(block);
      var dels, adds := SideLines(block, Old), SideLines(block, New);
      PairRowsCount(diff, fileId, hunk, dels, adds, Max(|dels|, |adds|));
      assert |BlockStackRows(diff, fileId, hunk, block, |block|)| > 0;
    }
  }

  lemma PlanHasRow(file: DiffFile, layout: Layout, headers: bool, diff: Differ, context: Option<FileContext>)
    requires forall k :: 0 <= k < |file.hunks| ==> file.hunks[k].lines != []
    ensures PlanWithContext(file, layout, headers, diff, context).rows != []
  {
    hide HunkRows, OptionalGapRows, HeaderRows, CollapsedGaps, Anchors, LargestInHunks;
    if file.hunks != [] {
      var n := |file.hunks|;
      HunkHasRow(layout, diff, file.id, n - 1, file.hunks[n - 1].lines);
      assert |HunkSections(file, layout, headers, diff, context, GapsOf(file, context), n)| > 0;
    }
  }

  lemma {:induction false} WovenKeepsRows(fileId: string, rows: seq<Row>, cards: seq<NoteCard>, n: nat)
    requires n <= |rows|
    ensures |Woven(fileId, rows, cards, n)| >= n
  {
    if n > 0 { WovenKeepsRows(fileId, rows, cards, n - 1); }
  }

  lemma {:induction false} PlannedHaveRows(env: Env, inputs: Inputs, shape: Shape, visible: seq<DiffFile>)
    requires HunksHaveLines(visible)
    ensures HaveRows(PlannedAll(env, inputs, shape, visible))
  {
    if visible != [] {
      hide PlanWithContext, CardsFor, Woven, NoteRows;
      var file := visible[|visible| - 1];
      PlannedHaveRows(env, inputs, shape, visible[..|visible| - 1]);
      PlanHasRow(file, shape.layout, inputs.options.hunkHeaders, env.diff, ContextOf(inputs, file.id));
      var plan := PlanWithContext(file, shape.layout, inputs.options.hunkHeaders, env.diff, ContextOf(inputs, file.id));
      WovenKeepsRows(file.id, plan.rows, CardsFor(env, inputs.notes, file.id, false, inputs.options.agentNotes, shape),
        |plan.rows|);
    }
  }

  /** Rows drawn beyond either edge of the view. */
  const OVERSCAN: nat := 2

  /**
   * Drawing at any height, at any scroll position the controller allows: the window of rows to draw is empty only
   * if there are no rows, and its spacers always make up the rest of the document.
   */
  lemma DrawnWindowSums(env: Env, inputs: Inputs, v: Viewport, scrollTop: nat, height: nat)
    requires HunksHaveLines(inputs.files) && v.height > 0 && height > 0
    requires scrollTop <= CacheOf(env, inputs, v).geometry.MaxScrollTop()
    ensures var g := CacheOf(env, inputs, v).geometry; var w := WindowOf(g, scrollTop, height, OVERSCAN);
      && (g.rows != [] ==> w.start < w.end)
      && w.topSpacer + Rendered(g, w) + w.bottomSpacer == g.totalHeight
  {
    hide PlannedAll, GeometryOf, VisibleFiles, TrailerOf, RowIndexAt, WindowOf, Rendered;
    var c, visible, shape := CacheOf(env, inputs, v), VisibleFiles(env, inputs.files, inputs.filter),
      ShapeOf(inputs, v);
    VisibleAreFiles(env, inputs.files, inputs.filter);
    forall i, k | 0 <= i < |visible| && 0 <= k < |visible[i].hunks| ensures visible[i].hunks[k].lines != [] {
      assert visible[i] in inputs.files;
    }
    PlannedHaveRows(env, inputs, shape, visible);
    TallWindowsSum(env.w, c.planned, c.trailer, GeometryOptionsOf(inputs, shape, v), scrollTop, height, OVERSCAN);
    GeometryIsClose(env.w, c.planned, c.trailer, GeometryOptionsOf(inputs, shape, v));
    IndexIsBuilt(env, inputs, v);
    Stacks(env.w, c.planned, c.trailer, GeometryOptionsOf(inputs, shape, v));
  }

  // ---- Which row is chosen ----------------------------------------------------------------

  /** How many lines a row is from the selected one, by old line where there is one; a row without a line is last. */
  function LinesAway(a: RowKey, b: RowKey): nat {
    if (a.oldLine.None? && a.newLine.None?) || (b.oldLine.None? && b.newLine.None?) then NO_DISTANCE else
      var x := if a.oldLine.Some? then a.oldLine.value else a.newLine.value;
      var y := if b.oldLine.Some? then b.oldLine.value else b.newLine.value;
      Max(x, y) - Min(x, y)
  }

  ghost predicate IsNearestRow(c: Cache, key: RowKey, among: iset<nat>, i: nat) {
    && i in among && i < |c.geometry.rows|
    && forall j :: j in among && j < |c.geometry.rows| ==>
        var x, y := LinesAway(key, c.geometry.rows[i].key), LinesAway(key, c.geometry.rows[j].key);
        x < y || (x == y && i <= j)
  }

  ghost function RowsOfHunk(c: Cache, key: RowKey): iset<nat> {
    iset i: nat | SelectableAt(c, i) && c.geometry.rows[i].key.fileId == key.fileId
      && c.geometry.rows[i].key.hunkIndex == key.hunkIndex
  }

  ghost function RowsOfFile(c: Cache, key: RowKey): iset<nat> {
    iset i: nat | SelectableAt(c, i) && c.geometry.rows[i].key.fileId == key.fileId
  }

  lemma NearestIs(c: Cache, key: RowKey, among: iset<nat>, i: nat)
    requires IsNearest(c, key, among, i) && i < |c.geometry.rows|
    ensures IsNearestRow(c, key, among, i)
  {
  }

  /** When the selected row is gone, the nearest row of its hunk is chosen, else of its file, else the first of all. */
  lemma NearestIsChosen(c: Cache, key: RowKey, file: Option<string>)
    requires SameRow(c, key).None?
    ensures var chosen := Reselected(c, Some(key), file);
      if RowsOfHunk(c, key) != iset{} then chosen.Some? && IsNearestRow(c, key, RowsOfHunk(c, key), chosen.value)
      else if RowsOfFile(c, key) != iset{} then chosen.Some? && IsNearestRow(c, key, RowsOfFile(c, key), chosen.value)
      else match chosen
        case Some(i) => SelectableAt(c, i) && forall j: nat :: j < i ==> !SelectableAt(c, j)
        case None => forall j: nat :: !SelectableAt(c, j)
  {
    hide FirstSelectable, SameRow, IsNearest, IsNearestRow, NearestInHunk, NearestInFile;
    assert RowsOfHunk(c, key) == iset j: nat | InHunk(c, key, j);
    assert RowsOfFile(c, key) == iset j: nat | InFile(c, key.fileId, j);
    var inHunk, inFile := NearestInHunk(c, key), NearestInFile(c, key.fileId, Some(key));
    assert inHunk.None? <==> RowsOfHunk(c, key) == iset{} by { InItself(c, key); }
    assert inFile.None? <==> RowsOfFile(c, key) == iset{} by { InItself(c, key); }
    if inHunk.Some? {
      InItself(c, key);
      NearestIs(c, key, RowsOfHunk(c, key), inHunk.value);
    } else if inFile.Some? {
      InItself(c, key);
      NearestIs(c, key, RowsOfFile(c, key), inFile.value);
    }
  }

  lemma InItself(c: Cache, key: RowKey)
    ensures forall ok, i :: IsNearest(c, key, ok, i) ==> i in ok
  {
  }

  // ---- Which gap is toggled ---------------------------------------------------------------

  /** The first gap in front of the selected hunk or a later one, else the one after the last hunk, if there is one. */
  ghost predicate IsGapToToggle(fileId: string, hunks: seq<Hunk>, sourceLength: Option<(Side, nat)>, selected: nat,
                                key: Option<GapKey>) {
    if exists k :: selected <= k < |hunks| && GapBefore(fileId, hunks, k).Some? then
      exists k :: selected <= k < |hunks| && GapBefore(fileId, hunks, k).Some? && key == Some(GapKey(fileId, Before, k))
        && forall j :: selected <= j < k ==> GapBefore(fileId, hunks, j).None?
    else key == match TrailingGap(fileId, hunks, sourceLength)
      case Some(gap) => Some(gap.key)
      case None => None
  }

  lemma {:induction false} FoundFrom(fileId: string, hunks: seq<Hunk>, selected: nat, n: nat, rest: seq<CollapsedGap>)
    requires n <= |hunks| && forall i :: 0 <= i < |rest| ==> rest[i].key.position == Trailing
    ensures match FindFrom(GapsBefore(fileId, hunks, n) + rest, selected)
      case None => forall k :: selected <= k < n ==> GapBefore(fileId, hunks, k).None?
      case Some(gap) =>
        exists k :: selected <= k < n && GapBefore(fileId, hunks, k) == Some(gap)
          && forall j :: selected <= j < k ==> GapBefore(fileId, hunks, j).None?
  {
    hide GapBefore;
    FindSkips(rest, [], selected);
    assert rest + [] == rest;
    if n == 0 {
      assert GapsBefore(fileId, hunks, 0) + rest == rest;
    } else {
      FoundFrom(fileId, hunks, selected, n - 1, []);
      var front, last := GapsBefore(fileId, hunks, n - 1), ToSeq(GapBefore(fileId, hunks, n - 1));
      assert front + [] == front && front + last + rest == front + (last + rest);
      FindStops(front, last + rest, selected);
      NoneFound(front, selected);
      FindSkips(front, last + rest, selected);
      KeyOfGap(fileId, hunks, n - 1);
      FindSkips(last, rest, selected);
    }
  }

  lemma KeyOfGap(fileId: string, hunks: seq<Hunk>, k: nat)
    requires k < |hunks|
    ensures GapBefore(fileId, hunks, k).Some? ==> GapBefore(fileId, hunks, k).value.key == GapKey(fileId, Before, k)
  {
  }

  lemma {:induction false} NoneFound(gaps: seq<CollapsedGap>, selected: nat)
    ensures FindFrom(gaps, selected).None? ==>
      forall i :: 0 <= i < |gaps| ==> !(gaps[i].key.position == Before && gaps[i].key.hunkIndex >= selected)
  {
    if gaps != [] { NoneFound(gaps[1..], selected); }
  }

  /** Without a gap asked for, the one toggled is the first from the selected hunk on. */
  lemma GapToToggle(fileId: string, hunks: seq<Hunk>, sourceLength: Option<(Side, nat)>, selected: nat)
    ensures IsGapToToggle(fileId, hunks, sourceLength, selected,
      SelectGapForToggle(CollapsedGaps(fileId, hunks, sourceLength), selected))
  {
    hide GapBefore, TrailingGap, FindFrom;
    var rest := ToSeq(TrailingGap(fileId, hunks, sourceLength));
    TrailingKey(fileId, hunks, sourceLength);
    FoundFrom(fileId, hunks, selected, |hunks|, rest);
    forall k | 0 <= k < |hunks| ensures GapBefore(fileId, hunks, k).Some? ==>
      GapBefore(fileId, hunks, k).value.key == GapKey(fileId, Before, k) { KeyOfGap(fileId, hunks, k); }
    GapsBeforeKeys(fileId, hunks, |hunks|);
    FindSkips(GapsBefore(fileId, hunks, |hunks|), rest, 0);
  }

  lemma TrailingKey(fileId: string, hunks: seq<Hunk>, sourceLength: Option<(Side, nat)>)
    ensures TrailingGap(fileId, hunks, sourceLength).Some? ==>
      TrailingGap(fileId, hunks, sourceLength).value.key.position == Trailing
  {
  }

  // ---- What a reload keeps ----------------------------------------------------------------

  ghost predicate HasFile(files: seq<DiffFile>, id: string) { exists i :: 0 <= i < |files| && files[i].id == id }

  lemma {:induction false} FoundIffThere(files: seq<DiffFile>, id: string)
    ensures FileById(files, id).Some? <==> HasFile(files, id)
  {
    if files != [] {
      FoundIffThere(files[1..], id);
      assert forall i :: 0 < i < |files| ==> files[i] == files[1..][i - 1];
    }
  }

  /** Which of the notes these are, in the same order: those whose file is there. */
  ghost predicate Survive(notes: seq<ReviewNote>, files: seq<DiffFile>, kept: seq<ReviewNote>, picks: seq<nat>) {
    && |picks| == |kept| && (forall k :: 0 <= k < |picks| ==> picks[k] < |notes| && kept[k] == notes[picks[k]])
    && (forall k, l :: 0 <= k < l < |picks| ==> picks[k] < picks[l])
    && (forall j :: 0 <= j < |notes| ==> (j in picks <==> HasFile(files, notes[j].target.fileId)))
  }

  lemma SurviveMore(front: seq<ReviewNote>, last: ReviewNote, files: seq<DiffFile>, kept: seq<ReviewNote>,
                    picks: seq<nat>)
    requires Survive(front, files, kept, picks)
    ensures if HasFile(files, last.target.fileId)
            then Survive(front + [last], files, kept + [last], picks + [|front|])
            else Survive(front + [last], files, kept, picks)
  {
    hide HasFile;
  }

  lemma NoneSurvive(files: seq<DiffFile>)
    ensures Survive([], files, [], []) && KeptNotes([], files) == []
  {
  }

  lemma {:induction false} NotesKept(notes: seq<ReviewNote>, files: seq<DiffFile>) returns (picks: seq<nat>)
    ensures Survive(notes, files, KeptNotes(notes, files), picks)
  {
    hide *;
    if notes == [] {
      picks := [];
      NoneSurvive(files);
    } else {
      var front, last := notes[..|notes| - 1], notes[|notes| - 1];
      var before := NotesKept(front, files);
      FoundIffThere(files, last.target.fileId);
      KeptPush(front, last, files);
      SurviveMore(front, last, files, KeptNotes(front, files), before);
      assert front + [last] == notes && KeptNotes(front, files) + [] == KeptNotes(front, files);
      picks := if HasFile(files, last.target.fileId) then before + [|front|] else before;
    }
  }

  lemma KeptPush(front: seq<ReviewNote>, last: ReviewNote, files: seq<DiffFile>)
    ensures KeptNotes(front + [last], files)
         == KeptNotes(front, files) + (if FileById(files, last.target.fileId).Some? then [last] else [])
  {
    hide FileById;
    assert (front + [last])[..|front|] == front;
  }

  /** Of the notes and marks, a reload keeps exactly those whose file is still there, the notes in order. */
  lemma ReloadKeeps(env: Env, inputs: Inputs, files: seq<DiffFile>) returns (picks: seq<nat>)
    ensures var after := Replaced(env, inputs, files);
      && Survive(inputs.notes, after.files, after.notes, picks)
      && (forall id :: id in after.viewed <==> id in inputs.viewed && HasFile(after.files, id))
      && (forall id :: id in after.expandedTests <==> id in inputs.expandedTests && HasFile(after.files, id))
      && after.contexts == map[]
  {
    hide HasFile, Arranged, KeptNotes, Survive;
    var after := Replaced(env, inputs, files);
    picks := NotesKept(inputs.notes, after.files);
    forall id ensures FileById(after.files, id).Some? <==> HasFile(after.files, id) { FoundIffThere(after.files, id); }
  }

  // ---- Scrolling sideways -----------------------------------------------------------------

  /** How far a cell of a row runs past its code, if it is one of its cells. */
  predicate IsPast(w: CellWidth, row: Row, digits: nat, o: GeometryOptions, past: nat) {
    row.Line? && match row.row
      case Stack(_, cell) => past == Monus(Cells(w, SpansText(cell.spans)), StackCodeWidth(o, digits))
      case Split(_, left, right) =>
        var (leftWidth, rightWidth) := SplitCodeWidths(o, digits);
        past == Monus(Cells(w, SpansText(left.spans)), leftWidth)
        || past == Monus(Cells(w, SpansText(right.spans)), rightWidth)
  }

  ghost predicate RunsPast(w: CellWidth, planned: seq<PlannedFile>, o: GeometryOptions, past: nat) {
    exists i, r :: 0 <= i < |planned| && 0 <= r < |planned[i].plan.rows|
      && IsPast(w, planned[i].plan.rows[r], planned[i].plan.digits, o, past)
  }

  lemma {:induction false} MostOfPlan(w: CellWidth, plan: RowPlan, o: GeometryOptions, n: nat)
    requires n <= |plan.rows|
    ensures forall r: nat, past: nat :: r < n && IsPast(w, plan.rows[r], plan.digits, o, past) ==>
      past <= PlanOverflow(w, plan, o, n)
    ensures PlanOverflow(w, plan, o, n) == 0
      || exists r :: 0 <= r < n && IsPast(w, plan.rows[r], plan.digits, o, PlanOverflow(w, plan, o, n))
  {
    if n > 0 {
      MostOfPlan(w, plan, o, n - 1);
      MostOfRow(w, plan.rows[n - 1], plan.digits, o);
      hide IsPast, RowOverflow;
    }
  }

  lemma MostOfRow(w: CellWidth, row: Row, digits: nat, o: GeometryOptions)
    ensures forall past: nat :: IsPast(w, row, digits, o, past) ==> past <= RowOverflow(w, row, digits, o)
    ensures RowOverflow(w, row, digits, o) == 0 || IsPast(w, row, digits, o, RowOverflow(w, row, digits, o))
  {
  }

  lemma {:induction false} MostOfFiles(w: CellWidth, planned: seq<PlannedFile>, o: GeometryOptions)
    ensures forall past: nat :: RunsPast(w, planned, o, past) ==> past <= FilesOverflow(w, planned, o)
    ensures FilesOverflow(w, planned, o) == 0 || RunsPast(w, planned, o, FilesOverflow(w, planned, o))
  {
    if planned != [] {
      hide IsPast, PlanOverflow;
      var front, plan := planned[..|planned| - 1], planned[|planned| - 1].plan;
      MostOfFiles(w, front, o);
      MostOfPlan(w, plan, o, |plan.rows|);
      forall past: nat | RunsPast(w, planned, o, past) ensures past <= FilesOverflow(w, planned, o) {
        var i, r :| 0 <= i < |planned| && 0 <= r < |planned[i].plan.rows|
          && IsPast(w, planned[i].plan.rows[r], planned[i].plan.digits, o, past);
        if i < |front| {
          assert front[i] == planned[i];
          assert RunsPast(w, front, o, past);
        }
      }
      if RunsPast(w, front, o, FilesOverflow(w, front, o)) {
        var i, r :| 0 <= i < |front| && 0 <= r < |front[i].plan.rows|
          && IsPast(w, front[i].plan.rows[r], front[i].plan.digits, o, FilesOverflow(w, front, o));
        assert front[i] == planned[i];
      }
    }
  }

  /** Unwrapped lines scroll exactly as far as the one that runs furthest past its code; wrapped ones not at all. */
  lemma ScrollsToTheLongest(env: Env, inputs: Inputs, c: Cache, v: Viewport)
    ensures var most, o := MaxHorizontal(env, inputs, c, v), GeometryOptionsOf(inputs, c.shape, v);
      && (inputs.options.wrapLines ==> most == 0)
      && (!inputs.options.wrapLines ==> forall past: nat :: RunsPast(env.w, c.planned, o, past) ==> past <= most)
      && (!inputs.options.wrapLines && most > 0 ==> RunsPast(env.w, c.planned, o, most))
  {
    MostOfFiles(env.w, c.planned, GeometryOptionsOf(inputs, c.shape, v));
  }

  // ---- Compacting -------------------------------------------------------------------------

  /**
   * Which files are compacted: those marked viewed, and test files while these are compacted, but for expanded ones.
   * A compacted file takes one row.
   */
  lemma Compacting(env: Env, inputs: Inputs, shape: Shape, file: DiffFile)
    ensures var planned := PlannedOf(env, inputs, shape, file);
      && planned.fileId == file.id
      && (planned.compacted ==> |planned.plan.rows| == 1 && planned.plan.rows[0].CompactedFile?)
    ensures PlannedOf(env, inputs.(viewed := inputs.viewed + {file.id}), shape, file).compacted
    ensures var unmarked := inputs.(viewed := inputs.viewed - {file.id});
      && !PlannedOf(env, unmarked.(expandedTests := inputs.expandedTests + {file.id}), shape, file).compacted
      && !PlannedOf(env, unmarked.(testsCompacted := false), shape, file).compacted
      && (PlannedOf(env, unmarked.(testsCompacted := true, expandedTests := {}), shape, file).compacted
          <==> env.isTest(file.path))
  {
    hide NotedPlan;
  }

  // ---- Reading a source -------------------------------------------------------------------

  /** A source is read once, and of the side that is still there: the new one unless the file was deleted. */
  lemma SourceIsReadOnce(file: DiffFile, context: FileContext, loaded: Result<string, SourceFailure>,
                         again: Result<string, SourceFailure>)
    ensures var once := WithSource(file, context, loaded);
      && WithSource(file, once, again) == once && once.expanded == context.expanded
      && (context.source.None? && loaded.Ok? ==>
            once.source == Some(Ok(LoadedSource(if file.deleted then Old else New, loaded.value))))
      && (context.source.None? && loaded.Err? ==> once.source == Some(Err(loaded.error)))
  {
  }
}
