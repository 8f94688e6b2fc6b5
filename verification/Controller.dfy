/** The review controller: inputs, the cache built from them, the selection and the scroll position. */
module Controller {
  import opened Text
  import opened DiffModel
  import opened Context
  import opened Rows
  import opened Plan
  import opened Geometry
  import opened Anchor
  import opened ControllerModel
  import opened ControllerProofs
  import opened Movement
  import RowKeys

  class ReviewController {
    const env: Env
    var inputs: Inputs
    var cache: Option<Cache>
    var lastViewport: Option<Viewport>
    var dirty: bool
    var cursor: Cursor
    var focusedSide: Side
    var scrollTop: nat
    var horizontalOffset: nat

    /**
     * Not dirty, and true to the inputs: the cached plans and geometry are the ones rebuilt from them for this
     * viewport, the cursor is on a row that can be selected, and both offsets are within their maxima.
     */
    ghost predicate Clean(v: Viewport) reads this {
      && !dirty && lastViewport == Some(v)
      && cache == Some(CacheOf(env, inputs, v))
      && CursorOk(cache.value, cursor)
      && scrollTop <= cache.value.geometry.MaxScrollTop()
      && horizontalOffset <= MaxHorizontal(env, inputs, cache.value, v)
      && InputsOk()
    }

    ghost predicate InputsOk() reads this { ContextsOk(inputs.contexts) && DistinctFiles(inputs.files) }

    ghost predicate Valid() reads this {
      InputsOk() && (dirty || (lastViewport.Some? && Clean(lastViewport.value)))
    }

    constructor (env: Env, files: seq<DiffFile>, options: Options)
      requires DistinctFiles(files)
      ensures Valid() && this.env == env
      ensures inputs == Inputs(Arranged(env, options.testsLast, files), options, "", map[], [], [], false, {}, {},
        None, DEFAULT_SIDEBAR_WIDTH)
      ensures dirty && cache == None && lastViewport == None && scrollTop == 0 && horizontalOffset == 0
        && focusedSide == Old
      ensures cursor == Cursor(if files == [] then None else Some(inputs.files[0].id), Some(0), None)
    {
      var arranged := Arranged(env, options.testsLast, files);
      ArrangedKeepsFiles(env, options.testsLast, files);
      this.env := env;
      inputs := Inputs(arranged, options, "", map[], [], [], false, {}, {}, None, DEFAULT_SIDEBAR_WIDTH);
      cache, lastViewport, dirty := None, None, true;
      cursor := Cursor(if arranged == [] then None else Some(arranged[0].id), Some(0), None);
      focusedSide, scrollTop, horizontalOffset := Old, 0, 0;
    }

    function Here(): Place
      reads this
    {
      Place(cursor, focusedSide, scrollTop, horizontalOffset)
    }

    /** Where the reader is once the geometry is up to date for a viewport. */
    function RefreshedPlace(v: Viewport): Place
      reads this
    {
      Refreshed(env, inputs, cache, !dirty && lastViewport == Some(v), v, Here())
    }

    // ---- Rebuilding -----------------------------------------------------------------------

    method Rebuild(v: Viewport, preserveAnchor: bool)
      requires InputsOk()
      modifies this`cache, this`lastViewport, this`dirty, this`cursor, this`focusedSide, this`scrollTop,
        this`horizontalOffset
      ensures Clean(v)
      ensures Here() == RebuiltPlace(env, inputs, v,
        if preserveAnchor then AnchorOf(old(cache), old(Here())) else None, old(Here()))
    {
      hide CursorOk, Restore, RebuiltScroll, CacheOf, MaxHorizontal, StaysVisible, Reselected, RowFor, RebuiltCursor,
        FileToFind, FocusAt, ContextsOk, DistinctFiles;
      var anchor := if preserveAnchor && cache.Some?
        then Some(Capture(cache.value.geometry, scrollTop, cursor.file, cursor.hunk)) else None;
      var previous, stays := cursor.key, StaysVisible(env, inputs, cursor);
      var built := BuildCache(env, inputs, v);
      var file := FileToFind(built, stays, cursor);
      scrollTop := RebuiltScroll(built, stays, anchor, scrollTop, file);
      ScrollIsClamped(built, stays, anchor, old(scrollTop), file);
      cache := Some(built);
      SelectRow(Reselected(built, previous, file));
      SelectedIs(built, previous, file);
      RebuiltCursorIsOk(env, inputs, v, previous, file);
      horizontalOffset := Min(horizontalOffset, MaxHorizontal(env, inputs, built, v));
      lastViewport := Some(v);
      dirty := false;
    }

    /** Puts the cursor on a row, or nowhere; a row of one side pulls the focus there. */
    method SelectRow(index: Option<nat>)
      requires cache.Some?
      modifies this`cursor, this`focusedSide
      ensures cursor == if index.Some? && index.value < |cache.value.geometry.rows|
                        then CursorAt(cache.value.geometry.rows[index.value]) else NO_CURSOR
      ensures focusedSide == FocusAt(cache.value, index, old(focusedSide))
    {
      if index.None? || index.value >= |cache.value.geometry.rows| {
        cursor := NO_CURSOR;
        return;
      }
      var bound := cache.value.geometry.rows[index.value];
      cursor := CursorAt(bound);
      var row := RowFor(cache.value, bound);
      if row.Some? {
        focusedSide := Snapped(focusedSide, AvailableSides(row.value));
      }
    }

    method EnsureGeometry(v: Viewport)
      requires Valid()
      modifies this`cache, this`lastViewport, this`dirty, this`cursor, this`focusedSide, this`scrollTop,
        this`horizontalOffset
      ensures Clean(v)
      ensures Here() == old(RefreshedPlace(v))
      ensures old(Clean(v)) ==>
        && cursor == old(cursor) && scrollTop == old(scrollTop) && horizontalOffset == old(horizontalOffset)
        && focusedSide == old(focusedSide) && cache == old(cache)
    {
      hide CursorOk, CacheOf, MaxHorizontal, RebuiltPlace, AnchorOf, ContextsOk, DistinctFiles;
      if dirty || lastViewport != Some(v) {
        Rebuild(v, true);
      }
    }

    /** Replaces the inputs and rebuilds, keeping the reader's place. */
    method Change(inputs': Inputs, v: Viewport)
      requires ContextsOk(inputs'.contexts) && DistinctFiles(inputs'.files)
      modifies this
      ensures Clean(v) && inputs == inputs'
      ensures Here() == RebuiltPlace(env, inputs', v, AnchorOf(old(cache), old(Here())), old(Here()))
    {
      hide CursorOk, CacheOf, MaxHorizontal, RebuiltPlace, AnchorOf, ContextsOk, DistinctFiles;
      inputs := inputs';
      dirty := true;
      Rebuild(v, true);
    }

    // ---- Moving the cursor ----------------------------------------------------------------

    method SelectFromViewport(v: Viewport)
      requires Clean(v)
      modifies this`cursor, this`focusedSide
      ensures Clean(v) && cursor == ViewportCursor(cache.value, scrollTop, v.height)
      ensures Here() == FromView(cache.value, v, old(Here()))
    {
      hide CursorOk, CacheOf, MaxHorizontal, RowFor, SelectableAt, ContextsOk, DistinctFiles;
      var i := FromViewport(cache.value, scrollTop, v.height);
      SelectRow(i);
      if i.Some? { CursorOkAt(cache.value, i.value); } else { NoCursorOk(cache.value); }
    }

    /** Scrolls as little as possible to show the selected row. */
    method EnsureCursorVisible(v: Viewport)
      requires Clean(v)
      modifies this`scrollTop
      ensures Clean(v)
      ensures cursor.key.Some? && RowByKey(cache.value.geometry, cursor.key.value).Some? ==>
        scrollTop == Min(Revealed(RowByKey(cache.value.geometry, cursor.key.value).value, old(scrollTop), v.height),
                         cache.value.geometry.MaxScrollTop())
      ensures !(cursor.key.Some? && RowByKey(cache.value.geometry, cursor.key.value).Some?) ==>
        scrollTop == old(scrollTop)
      ensures Here() == Revealing(cache.value, v, old(Here()))
    {
      hide CursorOk, CacheOf, MaxHorizontal, RowFor, SelectableAt, ContextsOk, DistinctFiles;
      hide Revealed;
      var g := cache.value.geometry;
      if cursor.key.None? || RowByKey(g, cursor.key.value).None? {
        return;
      }
      scrollTop := Min(Revealed(RowByKey(g, cursor.key.value).value, scrollTop, v.height), g.MaxScrollTop());
    }

    method Scroll(delta: int, unit: ScrollUnit, v: Viewport)
      requires Clean(v)
      modifies this`cursor, this`focusedSide, this`scrollTop
      ensures Clean(v)
      ensures scrollTop == Min(SignedOffset(old(scrollTop), delta, Amount(unit, v.height)),
        cache.value.geometry.MaxScrollTop())
      ensures cursor == ViewportCursor(cache.value, scrollTop, v.height)
      ensures Here() == Scrolled(cache.value, v, delta, unit, old(Here()))
    {
      hide CursorOk, CacheOf, MaxHorizontal, RowFor, SelectableAt, ContextsOk, DistinctFiles, FromView;
      scrollTop := Min(SignedOffset(scrollTop, delta, Amount(unit, v.height)), cache.value.geometry.MaxScrollTop());
      SelectFromViewport(v);
    }

    method ScrollHorizontal(delta: int, v: Viewport)
      requires Clean(v)
      modifies this`horizontalOffset
      ensures Clean(v)
      ensures horizontalOffset == Min(SignedOffset(old(horizontalOffset), delta, 1),
        MaxHorizontal(env, inputs, cache.value, v))
      ensures Here() == old(Here()).(horizontal := horizontalOffset)
    {
      hide CursorOk, CacheOf, MaxHorizontal, RowFor, SelectableAt, ContextsOk, DistinctFiles;
      horizontalOffset := Min(SignedOffset(horizontalOffset, delta, 1), MaxHorizontal(env, inputs, cache.value, v));
    }

    /** Moves over the selectable rows, stopping at either end. */
    method MoveCursor(delta: int, v: Viewport)
      requires Clean(v)
      modifies this`cursor, this`focusedSide, this`scrollTop
      ensures Clean(v)
      ensures var rows := SelectableRows(cache.value, |cache.value.geometry.rows|);
        if rows == [] then cursor == old(cursor) && scrollTop == old(scrollTop)
        else
          var next := Min(SignedOffset(PositionOf(cache.value, rows, old(cursor).key, 0), delta, 1), |rows| - 1);
          rows[next] < |cache.value.geometry.rows| && cursor == CursorAt(cache.value.geometry.rows[rows[next]])
      ensures Here() == CursorMoved(cache.value, v, delta, old(Here()))
    {
      hide CursorOk, CacheOf, MaxHorizontal, RowFor, SelectableAt, ContextsOk, DistinctFiles;
      hide SelectableRows, PositionOf, FocusAt, Revealing, RowByKey;
      var c := cache.value;
      var rows := SelectableRows(c, |c.geometry.rows|);
      if rows == [] {
        return;
      }
      SelectableRowsAre(c, |c.geometry.rows|);
      var next := Min(SignedOffset(PositionOf(c, rows, cursor.key, 0), delta, 1), |rows| - 1);
      SelectRow(Some(rows[next]));
      CursorOkAt(c, rows[next]);
      EnsureCursorVisible(v);
    }

    /** Moves over the note cards, around either end. */
    method MoveNote(delta: int, v: Viewport)
      requires Clean(v)
      modifies this`cursor, this`focusedSide, this`scrollTop
      ensures Clean(v)
      ensures var notes := NoteIndices(cache.value, |cache.value.geometry.rows|);
        if notes == [] then cursor == old(cursor) && scrollTop == old(scrollTop)
        else
          var from := PositionOf(cache.value, notes, old(cursor).key, if delta < 0 then 0 else |notes| - 1);
          var next := notes[WrappingIndex(from, |notes|, delta)];
          next < |cache.value.geometry.rows| && cursor == CursorAt(cache.value.geometry.rows[next])
      ensures Here() == NoteMoved(cache.value, v, delta, old(Here()))
    {
      hide CursorOk, CacheOf, MaxHorizontal, RowFor, SelectableAt, ContextsOk, DistinctFiles;
      hide NoteIndices, PositionOf, WrappingIndex, FocusAt, Revealing, RowByKey;
      var c := cache.value;
      var notes := NoteIndices(c, |c.geometry.rows|);
      if notes == [] {
        return;
      }
      NoteIndicesAre(c, |c.geometry.rows|);
      var from := PositionOf(c, notes, cursor.key, if delta < 0 then 0 else |notes| - 1);
      var next := notes[WrappingIndex(from, |notes|, delta)];
      SelectRow(Some(next));
      CursorOkAt(c, next);
      EnsureCursorVisible(v);
    }

    method SelectNote(noteId: string, v: Viewport)
      requires Clean(v)
      modifies this`cursor, this`focusedSide, this`scrollTop
      ensures Clean(v)
      ensures cursor == old(cursor)
        || (cursor.key.Some? && cursor.key.value.kind == NoteKind && cursor.key.value.noteId == Some(noteId))
      ensures (exists i :: 0 <= i < |cache.value.geometry.rows| && NoteAt(cache.value, i, noteId)) ==>
        cursor.key.Some? && cursor.key.value.noteId == Some(noteId)
      ensures Here() == NotePicked(cache.value, v, noteId, old(Here()))
    {
      hide CursorOk, CacheOf, MaxHorizontal, RowFor, SelectableAt, ContextsOk, DistinctFiles;
      hide FocusAt, Revealing, RowByKey;
      var c := cache.value;
      FirstNoteIs(c, noteId);
      var i: nat := 0;
      while i < |c.geometry.rows| && !NoteAt(c, i, noteId)
        invariant i <= |c.geometry.rows| && forall j :: 0 <= j < i ==> !NoteAt(c, j, noteId)
      {
        i := i + 1;
      }
      if i < |c.geometry.rows| {
        SelectRow(Some(i));
        CursorOkAt(c, i);
        EnsureCursorVisible(v);
      }
    }

    method JumpTop(v: Viewport)
      requires Clean(v)
      modifies this`cursor, this`focusedSide, this`scrollTop
      ensures Clean(v)
      ensures match FirstSelectable(cache.value)
        case Some(i) => i < |cache.value.geometry.rows| && cursor == CursorAt(cache.value.geometry.rows[i])
          && scrollTop == 0
        case None => cursor == old(cursor) && scrollTop == old(scrollTop)
      ensures Here() == AtTop(cache.value, old(Here()))
    {
      hide CursorOk, CacheOf, MaxHorizontal, RowFor, SelectableAt, ContextsOk, DistinctFiles, FocusAt;
      var first := FirstSelectable(cache.value);
      if first.Some? {
        CursorOkAt(cache.value, first.value);
        SelectRow(first);
        scrollTop := 0;
      }
    }

    method JumpBottom(v: Viewport)
      requires Clean(v)
      modifies this`cursor, this`focusedSide, this`scrollTop
      ensures Clean(v)
      ensures var rows := SelectableRows(cache.value, |cache.value.geometry.rows|);
        if rows == [] then cursor == old(cursor) && scrollTop == old(scrollTop)
        else
          && rows[|rows| - 1] < |cache.value.geometry.rows|
          && cursor == CursorAt(cache.value.geometry.rows[rows[|rows| - 1]])
          && scrollTop == cache.value.geometry.MaxScrollTop()
      ensures Here() == AtBottom(cache.value, old(Here()))
    {
      hide CursorOk, CacheOf, MaxHorizontal, RowFor, SelectableAt, ContextsOk, DistinctFiles;
      hide SelectableRows, FocusAt;
      var c := cache.value;
      var rows := SelectableRows(c, |c.geometry.rows|);
      if rows != [] {
        SelectableRowsAre(c, |c.geometry.rows|);
        SelectRow(Some(rows[|rows| - 1]));
        CursorOkAt(c, rows[|rows| - 1]);
        scrollTop := c.geometry.MaxScrollTop();
      }
    }

    /** Focuses a side, unless the selected row shows only the other one. */
    method FocusSide(side: Side, v: Viewport)
      requires Clean(v)
      modifies this`focusedSide
      ensures Clean(v)
      ensures focusedSide == (match SelectedRow(cache.value, cursor)
        case Some(row) => Snapped(side, AvailableSides(row))
        case None => side)
      ensures Here() == Focused(cache.value, side, old(Here()))
    {
      hide CursorOk, CacheOf, MaxHorizontal, RowFor, SelectableAt, ContextsOk, DistinctFiles;
      focusedSide := side;
      var row := SelectedRow(cache.value, cursor);
      if row.Some? {
        focusedSide := Snapped(side, AvailableSides(row.value));
      }
    }

    // ---- Files and hunks ------------------------------------------------------------------

    /**
     * Selects the first row of a visible file's hunk, one line below the top of the view; else the file's first row.
     * A file the filter hides is not reached: its hunk's number is looked up in the first visible file.
     */
    method SelectTarget(fileId: string, hunk: nat, v: Viewport)
      requires InputsOk()
      modifies this`cache, this`lastViewport, this`dirty, this`cursor, this`focusedSide, this`scrollTop,
        this`horizontalOffset
      ensures Clean(v)
      ensures cursor == Landing(env, inputs, cache.value, fileId, hunk)
      ensures cursor.file == Some(fileId) && cursor.hunk == Some(hunk)
        <==> IsVisible(env, inputs, fileId) && TargetRow(cache.value, fileId, hunk).Some?
      ensures IsVisible(env, inputs, fileId) && TargetRow(cache.value, fileId, hunk).Some? ==>
        TargetRow(cache.value, fileId, hunk).value < |cache.value.geometry.rows|
        && cursor == CursorAt(cache.value.geometry.rows[TargetRow(cache.value, fileId, hunk).value])
        && cursor.file == Some(fileId) && cursor.hunk == Some(hunk)
      ensures Here() == Targeted(env, inputs, v, fileId, hunk, old(Here()))
    {
      hide CursorOk, CacheOf, MaxHorizontal, RowFor, ContextsOk, DistinctFiles, RebuiltScroll, RebuiltCursor,
        Reselected, TargetRow, FocusAt;
      cursor := Cursor(Some(fileId), Some(hunk), None);
      dirty := true;
      Rebuild(v, false);
      var c := cache.value;
      TargetFile(env, inputs, v, fileId, hunk);
      TargetIsReachedIff(env, inputs, v, fileId, hunk);
      var target := TargetRow(c, if cursor.file.Some? then cursor.file.value else "", hunk);
      if target.Some? {
        assert OfHunk(c, target.value, if cursor.file.Some? then cursor.file.value else "", hunk);
        SelectRow(target);
        CursorOkAt(c, target.value);
        SelectableRowsHaveFiles(env, inputs, v, target.value);
        if RowByKey(c.geometry, cursor.key.value).Some? {
          scrollTop := Min(Monus(RowByKey(c.geometry, cursor.key.value).value.top, 1), c.geometry.MaxScrollTop());
        }
      }
    }

    method MoveFile(delta: int, v: Viewport)
      requires Clean(v)
      modifies this`cache, this`lastViewport, this`dirty, this`cursor, this`focusedSide, this`scrollTop,
        this`horizontalOffset
      ensures Clean(v)
      ensures var ids := VisibleIds(cache.value.visible);
        ids != [] ==>
          var next := ids[WrappingIndex(IdPosition(ids, old(cursor).file), |ids|, delta)];
          TargetRow(cache.value, next, 0).Some? ==> cursor.file == Some(next) && cursor.hunk == Some(0)
      ensures Here() == FileMoved(env, inputs, v, delta, old(Here()))
    {
      hide Targeted, Landing, CursorOk, MaxHorizontal, RowFor, SelectableAt, TargetRow, WrappingIndex, IdPosition,
        PlannedAll, GeometryOf, TrailerOf, VisibleFiles;
      var visible := cache.value.visible;
      var ids := VisibleIds(visible);
      if ids == [] {
        return;
      }
      var next := WrappingIndex(IdPosition(ids, cursor.file), |ids|, delta);
      VisibleCanBeFound(env, inputs, next);
      SelectTarget(ids[next], 0, v);
    }

    method MoveHunk(delta: int, v: Viewport)
      requires Clean(v)
      modifies this`cache, this`lastViewport, this`dirty, this`cursor, this`focusedSide, this`scrollTop,
        this`horizontalOffset
      ensures Clean(v)
      ensures var targets := HunkTargets(cache.value.visible);
        targets != [] ==>
          var (file, hunk) := targets[WrappingIndex(TargetPosition(targets, old(cursor)), |targets|, delta)];
          TargetRow(cache.value, file, hunk).Some? ==> cursor.file == Some(file) && cursor.hunk == Some(hunk)
      ensures Here() == HunkMoved(env, inputs, v, delta, old(Here()))
    {
      hide Targeted, Landing, CursorOk, MaxHorizontal, RowFor, SelectableAt, TargetRow, WrappingIndex, TargetPosition,
        PlannedAll, GeometryOf, TrailerOf, VisibleFiles, HunkTargets;
      var visible := cache.value.visible;
      var targets := HunkTargets(visible);
      if targets == [] {
        return;
      }
      var next := WrappingIndex(TargetPosition(targets, cursor), |targets|, delta);
      TargetsAreVisible(visible, next);
      var k :| 0 <= k < |visible| && visible[k].id == targets[next].0;
      VisibleCanBeFound(env, inputs, k);
      SelectTarget(targets[next].0, targets[next].1, v);
    }

    method SelectFile(fileId: string, v: Viewport)
      requires Clean(v)
      modifies this`cache, this`lastViewport, this`dirty, this`cursor, this`focusedSide, this`scrollTop,
        this`horizontalOffset
      ensures Clean(v)
      ensures fileId in VisibleIds(cache.value.visible) && TargetRow(cache.value, fileId, 0).Some? ==>
        cursor.file == Some(fileId) && cursor.hunk == Some(0)
      ensures fileId !in VisibleIds(cache.value.visible) ==> cursor == old(cursor) && scrollTop == old(scrollTop)
      ensures Here() == FilePicked(env, inputs, v, fileId, old(Here()))
    {
      hide Targeted, Landing, CursorOk, MaxHorizontal, RowFor, SelectableAt, TargetRow, PlannedAll, GeometryOf,
        TrailerOf, VisibleFiles;
      var ids := VisibleIds(cache.value.visible);
      if fileId in ids {
        var k :| 0 <= k < |ids| && ids[k] == fileId;
        VisibleCanBeFound(env, inputs, k);
        SelectTarget(fileId, 0, v);
      }
    }

    // ---- What is reviewed -----------------------------------------------------------------

    /** Files that are compacted: viewed ones, and test files while those are. */
    method ToggleFileViewed(v: Viewport) returns (effect: Effect)
      requires Clean(v)
      modifies this
      ensures Clean(v)
      ensures match FileToToggle(old(inputs), old(cursor))
        case None => effect == Nothing && inputs == old(inputs) && cursor == old(cursor) && scrollTop == old(scrollTop)
        case Some(file) =>
          && inputs == ViewToggled(old(inputs), file.id)
          && effect == ViewedChanged(file.path, file.id in inputs.viewed)
      ensures Here() == ViewToggledPlace(env, old(inputs), v, old(Here()))
    {
      hide CursorOk, CacheOf, MaxHorizontal, ContextsOk, DistinctFiles, TargetRow, VisibleIds, WrappingIndex,
        IdPosition, RebuiltPlace, FileMoved, AnchorOf;
      var file := FileToToggle(inputs, cursor);
      if file.None? {
        return Nothing;
      }
      var viewed := file.value.id !in inputs.viewed;
      Change(ViewToggled(inputs, file.value.id), v);
      if viewed {
        MoveFile(1, v);
      }
      effect := ViewedChanged(file.value.path, viewed);
    }

    method ExpandCompactedFile(fileId: string, v: Viewport) returns (effect: Effect)
      requires Clean(v)
      modifies this
      ensures Clean(v)
      ensures match FileById(old(inputs).files, fileId)
        case Some(file) =>
          if IsCompacted(env, old(inputs), file) then
            && inputs == Expanded(old(inputs), fileId) && !IsCompacted(env, inputs, file)
            && effect == (if fileId in old(inputs).viewed then ViewedChanged(file.path, false) else Redraw)
          else inputs == old(inputs) && cursor == old(cursor) && scrollTop == old(scrollTop) && effect == Redraw
        case None => inputs == old(inputs) && cursor == old(cursor) && scrollTop == old(scrollTop) && effect == Redraw
      ensures Here() == ExpandedPlace(env, old(inputs), v, fileId, old(Here()))
    {
      hide CursorOk, CacheOf, MaxHorizontal, ContextsOk, DistinctFiles, RebuiltPlace, AnchorOf;
      effect := Redraw;
      var file := FileById(inputs.files, fileId);
      if file.None? || !IsCompacted(env, inputs, file.value) {
        return;
      }
      FoundHasId(inputs.files, fileId);
      if fileId in inputs.viewed {
        effect := ViewedChanged(file.value.path, false);
      }
      Change(Expanded(inputs, fileId), v);
    }

    /** Any change to notes, drafts, questions, answers or threads. */
    method SetNotes(notes: seq<ReviewNote>, unplaced: seq<UnplacedThread>, v: Viewport)
      requires InputsOk()
      modifies this
      ensures Clean(v) && inputs == old(inputs).(notes := notes, unplaced := unplaced)
    {
      Change(inputs.(notes := notes, unplaced := unplaced), v);
    }

    method ResizeSidebar(width: nat, v: Viewport)
      requires Clean(v)
      modifies this
      ensures Clean(v)
      ensures var maximum := Max(Monus(v.width, MIN_CONTENT_WIDTH + SIDEBAR_DIVIDER_WIDTH), MIN_SIDEBAR_WIDTH);
        inputs == old(inputs).(sidebarWidth := Min(Max(width, MIN_SIDEBAR_WIDTH), maximum))
    {
      var maximum := Max(Monus(v.width, MIN_CONTENT_WIDTH + SIDEBAR_DIVIDER_WIDTH), MIN_SIDEBAR_WIDTH);
      var clamped := Min(Max(width, MIN_SIDEBAR_WIDTH), maximum);
      if inputs.sidebarWidth != clamped {
        Change(inputs.(sidebarWidth := clamped), v);
      }
    }

    method ScrollToRow(row: nat, v: Viewport)
      requires Clean(v)
      modifies this`cursor, this`focusedSide, this`scrollTop
      ensures Clean(v)
      ensures row >= Monus(v.height, 1) && v.height >= 2 ==> scrollTop == cache.value.geometry.MaxScrollTop()
      ensures row == 0 ==> scrollTop == 0
      ensures cursor == ViewportCursor(cache.value, scrollTop, v.height)
    {
      hide CursorOk, CacheOf, MaxHorizontal, RowFor, SelectableAt, ContextsOk, DistinctFiles;
      var last := Monus(v.height, 1);
      var maximum := cache.value.geometry.MaxScrollTop();
      Proportion(maximum, Min(row, last), Max(last, 1));
      scrollTop := maximum * Min(row, last) / Max(last, 1);
      SelectFromViewport(v);
    }

    /** Scrolls to where the mouse is on the scroll bar: top and bottom row are the ends of the document. */
    method ScrollToMouseRow(row: nat, v: Viewport)
      requires Valid()
      modifies this`cache, this`lastViewport, this`dirty, this`cursor, this`focusedSide, this`scrollTop,
        this`horizontalOffset
      ensures Clean(v)
      ensures row >= Monus(v.height, 1) && v.height >= 2 ==> scrollTop == cache.value.geometry.MaxScrollTop()
      ensures row == 0 ==> scrollTop == 0
      ensures cursor == ViewportCursor(cache.value, scrollTop, v.height)
    {
      hide Clean, Refreshed, ViewportCursor;
      EnsureGeometry(v);
      ScrollToRow(row, v);
    }

    // ---- Context and files ----------------------------------------------------------------

    /**
     * Keeps a source that was just read without rebuilding. There is no gap to toggle even with it at hand, so
     * the plans would come out the same.
     */
    method KeepSource(file: DiffFile, ready: FileContext, selected: nat, v: Viewport)
      requires Clean(v) && file in inputs.files
      requires SelectGapForToggle(GapsOf(file, Some(ready)), selected).None? && ready.source.Some?
      requires var context := ContextOrNew(inputs.contexts, file.id);
        ready == context.(source := ready.source) && (context.source.Some? ==> ready == context)
      modifies this`inputs
      ensures Clean(v) && inputs == old(inputs).(contexts := old(inputs).contexts[file.id := ready])
    {
      hide CursorOk, CacheOf, MaxHorizontal, GapsOf, SelectGapForToggle, DistinctFiles;
      var contexts := inputs.contexts[file.id := ready];
      if ContextOrNew(inputs.contexts, file.id).source.None? {
        QuietWhenNoTarget(file, ContextOf(inputs, file.id), ready, selected);
        CacheUnchanged(env, inputs, v, file, ready);
      } else {
        ContextAgain(env, inputs, v, file.id, ready);
      }
      SameWidth(env, inputs, contexts, cache.value, v);
      inputs := inputs.(contexts := contexts);
    }

    method ToggleInFile(file: DiffFile, requested: Option<GapKey>, selected: nat,
                        loaded: Result<string, SourceFailure>, v: Viewport)
      returns (result: Result<bool, SourceFailure>)
      requires Clean(v) && file in inputs.files
      modifies this
      ensures Clean(v)
      ensures var toggled := ToggleFile(file, old(inputs).contexts, requested, selected, loaded);
        inputs == old(inputs).(contexts := toggled.contexts) && result == toggled.result
    {
      hide CursorOk, CacheOf, MaxHorizontal, GapsOf, SelectGapForToggle, DistinctFiles, ToggleTarget;
      var contexts, context := inputs.contexts, ContextOrNew(inputs.contexts, file.id);
      var target := ToggleTarget(GapsOf(file, Some(context)), requested, selected);
      if target.Some? && target.value in context.expanded {
        Change(inputs.(contexts := contexts[file.id := context.(expanded := context.expanded - {target.value})]), v);
        return Ok(false);
      }
      var ready := WithSource(file, context, loaded);
      if target.None? {
        target := SelectGapForToggle(GapsOf(file, Some(ready)), selected);
      }
      var failure := FailureOf(ready);
      if target.None? {
        KeepSource(file, ready, selected, v);
        return if failure.Some? then Err(failure.value) else Ok(false);
      }
      Change(inputs.(contexts := contexts[file.id := ready.(expanded := ready.expanded + {target.value})]), v);
      result := if failure.Some? then Err(failure.value) else Ok(true);
    }

    /**
     * Expands or collapses the requested gap, or the one nearest the cursor, reading the file's source the first time.
     */
    method ToggleContextTarget(requested: Option<GapKey>, loaded: Result<string, SourceFailure>, v: Viewport)
      returns (result: Result<bool, SourceFailure>)
      requires Valid()
      modifies this
      ensures Clean(v)
      ensures inputs == old(inputs).(contexts := ToggleOf(old(inputs), old(RefreshedPlace(v)).cursor, requested,
        loaded).contexts)
      ensures result == ToggleOf(old(inputs), old(RefreshedPlace(v)).cursor, requested, loaded).result
    {
      hide CursorOk, CacheOf, MaxHorizontal, ToggleFile, DistinctFiles, ContextsOk, FileById, Refreshed;
      EnsureGeometry(v);
      var id := if requested.Some? then Some(requested.value.fileId) else cursor.file;
      if id.None? || FileById(inputs.files, id.value).None? {
        return Err(Unavailable);
      }
      FoundHasId(inputs.files, id.value);
      var selected := if requested.Some? then requested.value.hunkIndex else if cursor.hunk.Some?
        then cursor.hunk.value else 0;
      result := ToggleInFile(FileById(inputs.files, id.value).value, requested, selected, loaded, v);
    }

    method SwapFiles(files: seq<DiffFile>, v: Viewport)
      requires Clean(v) && DistinctFiles(files)
      modifies this
      ensures Clean(v)
      ensures inputs == Replaced(env, old(inputs), files)
      ensures scrollTop == Restore(cache.value.geometry,
        Capture(old(cache).value.geometry, old(scrollTop), old(cursor).file, old(cursor).hunk))
    {
      hide CursorOk, CacheOf, MaxHorizontal, DistinctFiles, RebuiltScroll, RebuiltCursor, Capture, Restore,
        StaysVisible, FileToFind;
      var anchor := Capture(cache.value.geometry, scrollTop, cursor.file, cursor.hunk);
      ArrangedKeepsFiles(env, inputs.options.testsLast, files);
      inputs := Replaced(env, inputs, files);
      cache := None;
      var file := if cursor.file.Some? && FileById(inputs.files, cursor.file.value).Some? then cursor.file else None;
      var hunk := if file.None? then None else
        Some(Min(if cursor.hunk.Some? then cursor.hunk.value
          else 0, Monus(|FileById(inputs.files, file.value).value.hunks|, 1)));
      cursor := Cursor(file, hunk, cursor.key);
      dirty := true;
      Rebuild(v, false);
      RestoreIsClamped(cache.value.geometry, anchor);
      scrollTop := Restore(cache.value.geometry, anchor);
    }

    /** Reloads the files: what still has a home is kept, and the view returns to where it was. */
    method ReplaceFiles(files: seq<DiffFile>, v: Viewport)
      requires Valid() && DistinctFiles(files)
      modifies this
      ensures Clean(v)
      ensures inputs == Replaced(env, old(inputs), files)
      ensures var place := old(RefreshedPlace(v));
        scrollTop == Restore(cache.value.geometry,
          Capture(CacheOf(env, old(inputs), v).geometry, place.scrollTop, place.cursor.file, place.cursor.hunk))
    {
      hide CursorOk, CacheOf, MaxHorizontal, DistinctFiles, ContextsOk, Capture, Restore, Refreshed, Replaced;
      EnsureGeometry(v);
      SwapFiles(files, v);
    }

    // ---- Actions --------------------------------------------------------------------------

    /** Goes to a file or a hunk, rebuilding on the way. */
    method Jump(action: Action, v: Viewport)
      requires Clean(v) && (action.HunkBy? || action.FileBy? || action.PickFile?)
      modifies this`cache, this`lastViewport, this`dirty, this`cursor, this`focusedSide, this`scrollTop,
        this`horizontalOffset
      ensures Clean(v)
      ensures Here() == Moved(env, inputs, v, action, old(Here()))
    {
      CacheIs(v);
      hide Clean, TargetRow, VisibleIds, HunkTargets, WrappingIndex, IdPosition, TargetPosition, CacheOf,
        HunkMoved, FileMoved, FilePicked;
      match action {
        case HunkBy(delta) => MoveHunk(delta, v);
        case FileBy(delta) => MoveFile(delta, v);
        case PickFile(fileId) => SelectFile(fileId, v);
      }
    }

    /** Moves the cursor or the view; the inputs stay as they are. */
    method Move(action: Action, v: Viewport)
      requires Clean(v) && IsMove(action)
      modifies this`cache, this`lastViewport, this`dirty, this`cursor, this`focusedSide, this`scrollTop,
        this`horizontalOffset
      ensures Clean(v)
      ensures Here() == Moved(env, inputs, v, action, old(Here()))
    {
      if action.HunkBy? || action.FileBy? || action.PickFile? {
        hide Clean, Moved;
        Jump(action, v);
        return;
      }
      CacheIs(v);
      hide Clean, MaxHorizontal, FirstSelectable, SelectableRows, NoteIndices, PositionOf, ViewportCursor, SelectedRow,
        WrappingIndex, CacheOf, Scrolled, CursorMoved, Focused, AtTop, AtBottom, NoteMoved, NotePicked;
      match action {
        case ScrollBy(delta, unit) => Scroll(delta, unit, v);
        case ScrollSideways(delta) => ScrollHorizontal(delta, v);
        case CursorBy(delta) => MoveCursor(delta, v);
        case Focus(side) => FocusSide(side, v);
        case Top => JumpTop(v);
        case Bottom => JumpBottom(v);
        case NoteBy(delta) => MoveNote(delta, v);
        case PickNote(noteId) => SelectNote(noteId, v);
      }
    }

    lemma CacheIs(v: Viewport)
      requires Clean(v)
      ensures cache == Some(CacheOf(env, inputs, v))
    {
    }

    /** Changes the filter, the layout or an option, and rebuilds. */
    method Set(action: Action, v: Viewport)
      requires Clean(v) && IsSetting(action) && !(inputs.options.pagerMode && ApplicationOnly(action))
      modifies this
      ensures Clean(v) && inputs == NextInputs(env, old(inputs), v, action)
      ensures Here() == SettingPlace(env, old(inputs), v, action, old(Here()))
    {
      hide CursorOk, MaxHorizontal, ContextsOk, DistinctFiles, CacheOf, RebuiltPlace, AnchorOf;
      if action.ToggleWrap? && !inputs.options.wrapLines {
        horizontalOffset := 0;
      }
      if action.ToggleSidebar? {
        SidebarIsShaped(env, inputs, v);
        Change(inputs.(sidebarOverride := Some(!cache.value.shape.sidebar)), v);
      } else {
        Change(NextInputs(env, inputs, v, action), v);
      }
    }

    /**
     * Performs an action on whatever viewport there is now. Only settings and viewed marks change the inputs; each
     * action takes the reader to its own place, counted from where an up-to-date geometry leaves them.
     */
    method Apply(action: Action, v: Viewport) returns (effect: Effect)
      requires Valid()
      modifies this
      ensures Clean(v)
      ensures !ChangesViewed(action) ==> inputs == NextInputs(env, old(inputs), v, action)
      ensures inputs.files == old(inputs).files && inputs.filter == NextInputs(env, old(inputs), v, action).filter
        && inputs.options == NextInputs(env, old(inputs), v, action).options && inputs.contexts == old(inputs).contexts
        && inputs.notes == old(inputs).notes
      ensures old(inputs).options.pagerMode && ApplicationOnly(action) ==>
        effect == Nothing && inputs == old(inputs) && Here() == old(RefreshedPlace(v))
      ensures !(old(inputs).options.pagerMode && ApplicationOnly(action)) ==>
        Here() == After(env, old(inputs), v, action, old(RefreshedPlace(v)))
        && (action.Application? ==> effect == Forwarded)
        && (!action.Application? && !ChangesViewed(action) ==> effect == Redraw)
    {
      hide Clean, FileById, ShapeOf, IsCompacted, Refreshed, Moved, SettingPlace, ViewToggledPlace, ExpandedPlace;
      EnsureGeometry(v);
      if inputs.options.pagerMode && ApplicationOnly(action) {
        return Nothing;
      }
      effect := Redraw;
      if ChangesViewed(action) {
        effect := View(action, v);
      } else if IsSetting(action) {
        Set(action, v);
      } else if action.Application? {
        effect := Forwarded;
      } else {
        Move(action, v);
      }
    }

    /** Marks files viewed or not, or shows a compacted one. */
    method View(action: Action, v: Viewport) returns (effect: Effect)
      requires Clean(v) && ChangesViewed(action)
      modifies this
      ensures Clean(v)
      ensures inputs == old(inputs).(viewed := inputs.viewed, expandedTests := inputs.expandedTests)
      ensures Here() == After(env, old(inputs), v, action, old(Here()))
    {
      hide Clean, FileById, IsCompacted, ViewToggledPlace, ExpandedPlace;
      effect := Redraw;
      match action {
        case ToggleViewed => effect := ToggleFileViewed(v);
        case ExpandSelected =>
          if cursor.key.Some? && cursor.key.value.kind == CompactedKind {
            effect := ExpandCompactedFile(cursor.key.value.fileId, v);
          }
        case Expand(fileId) => effect := ExpandCompactedFile(fileId, v);
      }
    }
  }

  lemma FirstNoteIs(c: Cache, noteId: string)
    ensures var first := First(|c.geometry.rows|, (i: nat) => NoteAt(c, i, noteId));
      && (first.Some? ==> NoteAt(c, first.value, noteId) && forall i: nat :: i < first.value ==> !NoteAt(c, i, noteId))
      && (first.None? ==> forall i: nat :: i < |c.geometry.rows| ==> !NoteAt(c, i, noteId))
  {
    var ok := (i: nat) => NoteAt(c, i, noteId);
    var first := First(|c.geometry.rows|, ok);
    assert first.Some? ==> ok(first.value);
    forall i: nat | i < |c.geometry.rows| && (first.None? || i < first.value) ensures !NoteAt(c, i, noteId) {
      assert !ok(i);
    }
  }

  lemma ScrollIsClamped(c: Cache, stays: bool, anchor: Option<ViewportAnchor>, scroll: nat, file: Option<string>)
    ensures RebuiltScroll(c, stays, anchor, scroll, file) <= c.geometry.MaxScrollTop()
  {
    hide Restore, BodyTopOf;
  }

  lemma SelectedIs(c: Cache, key: Option<RowKey>, file: Option<string>)
    ensures RebuiltCursor(c, key, file) == (var i := Reselected(c, key, file);
      if i.Some? && i.value < |c.geometry.rows| then CursorAt(c.geometry.rows[i.value]) else NO_CURSOR)
  {
    hide Reselected;
  }

  lemma CursorOkAt(c: Cache, i: nat)
    requires i < |c.geometry.rows| && (SelectableAt(c, i) || c.geometry.rows[i].key.kind == NoteKind)
    ensures CursorOk(c, CursorAt(c.geometry.rows[i]))
  {
    hide RowFor;
    assert CanSelect(c, c.geometry.rows[i].key);
  }

  lemma NoCursorOk(c: Cache)
    requires forall i: nat :: !SelectableAt(c, i)
    ensures CursorOk(c, NO_CURSOR)
  {
  }

  lemma {:induction false} SelectableRowsAre(c: Cache, n: nat)
    ensures forall i :: 0 <= i < |SelectableRows(c, n)| ==>
      SelectableRows(c, n)[i] < n && SelectableAt(c, SelectableRows(c, n)[i])
    ensures forall i: nat :: i < n && SelectableAt(c, i) ==> i in SelectableRows(c, n)
    ensures forall i: nat :: SelectableAt(c, i) ==> i < |c.geometry.rows|
  {
    hide RowFor;
    if n > 0 { SelectableRowsAre(c, n - 1); }
  }

  lemma {:induction false} NoteIndicesAre(c: Cache, n: nat)
    requires n <= |c.geometry.rows|
    ensures forall i :: 0 <= i < |NoteIndices(c, n)| ==>
      NoteIndices(c, n)[i] < n && c.geometry.rows[NoteIndices(c, n)[i]].key.kind == NoteKind
  {
    if n > 0 { NoteIndicesAre(c, n - 1); }
  }

  lemma {:induction false} TargetsAreVisible(visible: seq<DiffFile>, i: nat)
    requires i < |HunkTargets(visible)|
    ensures exists k :: 0 <= k < |visible| && visible[k].id == HunkTargets(visible)[i].0
  {
    var front := visible[..|visible| - 1];
    if i < |HunkTargets(front)| {
      TargetsAreVisible(front, i);
      var k :| 0 <= k < |front| && front[k].id == HunkTargets(front)[i].0;
      assert visible[k].id == HunkTargets(visible)[i].0;
    } else {
      assert visible[|visible| - 1].id == HunkTargets(visible)[i].0;
    }
  }

  lemma VisibleCanBeFound(env: Env, inputs: Inputs, k: nat)
    requires DistinctFiles(inputs.files)
    requires k < |VisibleFiles(env, inputs.files, inputs.filter)|
    ensures var file := VisibleFiles(env, inputs.files, inputs.filter)[k];
      FileById(inputs.files, file.id) == Some(file) && env.matches(file, inputs.filter)
  {
    hide VisibleFiles, DistinctFiles;
    VisibleAreFiles(env, inputs.files, inputs.filter);
    FileIsById(inputs.files, VisibleFiles(env, inputs.files, inputs.filter)[k]);
  }

  /** With nothing selected but a file, a rebuild lands in that file if one of its hunks has a row. */
  lemma TargetFile(env: Env, inputs: Inputs, v: Viewport, fileId: string, hunk: nat)
    ensures var c := CacheOf(env, inputs, v);
      TargetRow(c, fileId, hunk).Some? ==> RebuiltCursor(c, None, Some(fileId)).file == Some(fileId)
  {
    hide CacheOf, FirstSelectable;
    var c := CacheOf(env, inputs, v);
    if TargetRow(c, fileId, hunk).Some? {
      var i := TargetRow(c, fileId, hunk).value;
      assert OfHunk(c, i, fileId, hunk);
      FileHasRow(c, fileId, i);
      SelectableRowsHaveFiles(env, inputs, v, NearestInFile(c, fileId, None).value);
    }
  }

  /** With nothing selected but a file, whatever a rebuild selects can be selected. */
  lemma FoundIsSelectable(c: Cache, file: Option<string>)
    ensures var i := Reselected(c, None, file); i.Some? ==> SelectableAt(c, i.value)
  {
    hide RowFor;
  }

  /** Asking for a hunk of a file selects it if and only if the filter lets the file through and the hunk has a row. */
  lemma TargetIsReachedIff(env: Env, inputs: Inputs, v: Viewport, fileId: string, hunk: nat)
    requires DistinctFiles(inputs.files)
    ensures var c := CacheOf(env, inputs, v);
      var landed := Landing(env, inputs, c, fileId, hunk);
      landed.file == Some(fileId) && landed.hunk == Some(hunk)
      <==> IsVisible(env, inputs, fileId) && TargetRow(c, fileId, hunk).Some?
  {
    hide CacheOf, TargetRow, SelectableAt, Reselected, DistinctFiles, RowKeys.Lets;
    var c, landed := CacheOf(env, inputs, v), Landing(env, inputs, CacheOf(env, inputs, v), fileId, hunk);
    TargetFile(env, inputs, v, fileId, hunk);
    VisibleIff(env, inputs, fileId);
    var asked := Cursor(Some(fileId), Some(hunk), None);
    var file := FileToFind(c, StaysVisible(env, inputs, asked), asked);
    var found := RebuiltCursor(c, None, file);
    var target := TargetRow(c, if found.file.Some? then found.file.value else "", hunk);
    FoundIsSelectable(c, file);
    var i := if target.Some? then target else Reselected(c, None, file);
    if target.Some? { assert OfHunk(c, target.value, if found.file.Some? then found.file.value else "", hunk); }
    if i.Some? {
      SelectableRowsHaveFiles(env, inputs, v, i.value);
      assert landed.file == Some(fileId) && landed.hunk == Some(hunk) ==> OfHunk(c, i.value, fileId, hunk);
    }
    if landed.file == Some(fileId) && !RowKeys.Lets(env, inputs, fileId) {
      RowKeys.HiddenIsNotReached(env, inputs, v, fileId, hunk);
    }
  }

  lemma VisibleIff(env: Env, inputs: Inputs, fileId: string)
    requires DistinctFiles(inputs.files)
    ensures RowKeys.Lets(env, inputs, fileId) <==> IsVisible(env, inputs, fileId)
  {
    hide DistinctFiles;
    FoundHasId(inputs.files, fileId);
    if RowKeys.Lets(env, inputs, fileId) {
      var file :| file in inputs.files && file.id == fileId && env.matches(file, inputs.filter);
      FileIsById(inputs.files, file);
    }
  }

  lemma FileHasRow(c: Cache, fileId: string, i: nat)
    requires SelectableAt(c, i) && c.geometry.rows[i].key.fileId == fileId
    ensures var j := NearestInFile(c, fileId, None);
      j.Some? && SelectableAt(c, j.value) && c.geometry.rows[j.value].key.fileId == fileId
  {
    hide RowFor;
    var ok := (j: nat) => SelectableAt(c, j) && c.geometry.rows[j].key.fileId == fileId;
    assert ok(i);
    assert First(|c.geometry.rows|, ok).Some?;
  }

  lemma {:induction false} FoundHasId(files: seq<DiffFile>, id: string)
    ensures FileById(files, id).Some? ==> FileById(files, id).value in files && FileById(files, id).value.id == id
  {
    if files != [] { FoundHasId(files[1..], id); }
  }

  lemma Proportion(maximum: nat, part: nat, whole: nat)
    requires part <= whole && whole > 0
    ensures maximum * part / whole <= maximum
    ensures part == whole ==> maximum * part / whole == maximum
  {
    assert maximum * part <= maximum * whole;
    assert maximum * whole / whole == maximum;
  }

  lemma RestoreIsClamped(g: ReviewGeometry, anchor: ViewportAnchor)
    ensures Restore(g, anchor) <= g.MaxScrollTop()
  {
    hide AnchorTop;
  }

  lemma SidebarIsShaped(env: Env, inputs: Inputs, v: Viewport)
    ensures CacheOf(env, inputs, v).shape == ShapeOf(inputs, v)
  {
  }

  /** With no gap to toggle even with the source at hand, there is none after the last hunk either. */
  lemma QuietWhenNoTarget(file: DiffFile, before: Option<FileContext>, after: FileContext, selected: nat)
    requires before.Some? ==> before.value.source.None? && before.value.expanded == {}
    requires after.expanded == {} && SelectGapForToggle(GapsOf(file, Some(after)), selected).None?
    ensures QuietLoad(file, before, after)
  {
    hide GapsOf;
  }

  lemma ContextAgain(env: Env, inputs: Inputs, v: Viewport, fileId: string, context: FileContext)
    requires fileId in inputs.contexts && inputs.contexts[fileId] == context
    ensures inputs.(contexts := inputs.contexts[fileId := context]) == inputs
  {
    assert inputs.contexts[fileId := context] == inputs.contexts;
  }

  lemma SameWidth(env: Env, inputs: Inputs, contexts: map<string, FileContext>, c: Cache, v: Viewport)
    ensures MaxHorizontal(env, inputs.(contexts := contexts), c, v) == MaxHorizontal(env, inputs, c, v)
  {
  }
}
