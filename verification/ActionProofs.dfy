/** Every movement action, from the place the reader is in: where it takes them. */
module ActionProofs {
  import opened Text
  import opened DiffModel
  import opened Rows
  import opened Geometry
  import opened Anchor
  import opened ControllerModel
  import opened ControllerProofs
  import opened Movement
  import opened MovementProofs
  import Controller

  // ---- Within the rows --------------------------------------------------------------------

  /** Top goes to the first row that can be selected and the start of the document, bottom to the last and the end. */
  lemma TopAndBottom(env: Env, inputs: Inputs, v: Viewport, place: Place)
    ensures var c := CacheOf(env, inputs, v);
      var top, bottom := After(env, inputs, v, Top, place), After(env, inputs, v, Bottom, place);
      && (NothingSelectable(c) ==> top == place && bottom == place)
      && (!NothingSelectable(c) ==> top.scrollTop == 0 && exists i: nat :: IsFirst(c, i) && On(c, i, top))
      && (!NothingSelectable(c) ==>
            bottom.scrollTop == c.geometry.MaxScrollTop() && exists i: nat :: IsLast(c, i) && On(c, i, bottom))
      && top.horizontal == bottom.horizontal == place.horizontal
  {
    hide CacheOf, AtTop, AtBottom, IsFirst, IsLast, On, NothingSelectable;
    TopIsFirst(CacheOf(env, inputs, v), place);
    BottomIsLast(CacheOf(env, inputs, v), place);
  }

  /** The cursor goes to the next row that can be selected, or the one before, and stays at either end. */
  lemma CursorSteps(env: Env, inputs: Inputs, v: Viewport, i: nat, place: Place)
    requires Selected(CacheOf(env, inputs, v), i, place)
    ensures var c := CacheOf(env, inputs, v);
      var down, up := After(env, inputs, v, CursorBy(1), place), After(env, inputs, v, CursorBy(-1), place);
      && (forall j: nat :: IsNext(c, i, j) ==> On(c, j, down)) && (IsLast(c, i) ==> On(c, i, down))
      && (forall j: nat :: SelectableAt(c, j) && IsNext(c, j, i) ==> On(c, j, up)) && (IsFirst(c, i) ==> On(c, i, up))
  {
    hide CacheOf, CursorMoved, IsFirst, IsLast, IsNext, On, Selected, SelectableAt;
    CursorStepsDown(CacheOf(env, inputs, v), v, i, place);
    CursorStepsUp(CacheOf(env, inputs, v), v, i, place);
  }

  /** From a note, the next one, the first after the last; and back. */
  lemma NoteActions(env: Env, inputs: Inputs, v: Viewport, p: nat, place: Place)
    requires IsNoteAt(CacheOf(env, inputs, v), p, place)
    ensures var c := CacheOf(env, inputs, v);
      var notes := NoteIndices(c, |c.geometry.rows|);
      && p < |notes|
      && On(c, notes[if p + 1 < |notes| then p + 1 else 0], After(env, inputs, v, NoteBy(1), place))
      && On(c, notes[if p > 0 then p - 1 else |notes| - 1], After(env, inputs, v, NoteBy(-1), place))
      && Ascending(notes) && forall i: nat :: i in notes <==> NoteRow(c, i)
  {
    hide CacheOf, NoteMoved, On, Ascending, NoteIndices;
    var c := CacheOf(env, inputs, v);
    NoteSteps(c, v, p, place);
    NotesInOrder(c, |c.geometry.rows|);
  }

  ghost predicate IsNoteAt(c: Cache, p: nat, place: Place) {
    var notes := NoteIndices(c, |c.geometry.rows|);
    p < |notes| && notes[p] < |c.geometry.rows| && place.cursor.key == Some(c.geometry.rows[notes[p]].key)
    && forall q :: 0 <= q < p && notes[q] < |c.geometry.rows| ==>
        c.geometry.rows[notes[q]].key != c.geometry.rows[notes[p]].key
  }

  /** From anywhere else, on to the first note of the document and back to the last. */
  lemma NoteFromElsewhere(env: Env, inputs: Inputs, v: Viewport, i: nat, place: Place)
    requires var c := CacheOf(env, inputs, v);
      NoteRow(c, i) && forall j: nat :: NoteRow(c, j) ==> place.cursor.key != Some(c.geometry.rows[j].key)
    ensures var c := CacheOf(env, inputs, v);
      && ((forall j: nat :: NoteRow(c, j) ==> i <= j) ==> On(c, i, After(env, inputs, v, NoteBy(1), place)))
      && ((forall j: nat :: NoteRow(c, j) ==> j <= i) ==> On(c, i, After(env, inputs, v, NoteBy(-1), place)))
  {
    hide CacheOf, NoteMoved, On;
    NotesStartAtTheEnds(CacheOf(env, inputs, v), v, place, i);
  }

  /** A note that is asked for is gone to, the first if several have the name; if it is not shown nothing moves. */
  lemma NoteIsPicked(env: Env, inputs: Inputs, v: Viewport, noteId: string, place: Place)
    ensures var c, to := CacheOf(env, inputs, v), After(env, inputs, v, PickNote(noteId), place);
      && (forall i: nat :: NoteAt(c, i, noteId) && (forall j: nat :: j < i ==> !NoteAt(c, j, noteId)) ==> On(c, i, to))
      && ((forall i: nat :: !NoteAt(c, i, noteId)) ==> to == place)
  {
    hide CacheOf, RowByKey, FocusAt, CursorAt, Revealed;
    var c := CacheOf(env, inputs, v);
    Controller.FirstNoteIs(c, noteId);
    hide NoteAt;
    forall i: nat | NoteAt(c, i, noteId) && (forall j: nat :: j < i ==> !NoteAt(c, j, noteId))
      ensures On(c, i, NotePicked(c, v, noteId, place))
    {
      NoteIsRow(c, i, noteId);
    }
  }

  lemma NoteIsRow(c: Cache, i: nat, noteId: string)
    requires NoteAt(c, i, noteId)
    ensures i < |c.geometry.rows|
  {
  }

  // ---- The view ---------------------------------------------------------------------------

  /** Scrolling moves the view by lines, screens or half screens, to either end at most, and selects from its middle. */
  lemma Scrolls(env: Env, inputs: Inputs, v: Viewport, unit: ScrollUnit, place: Place)
    requires v.height >= 2
    ensures var c := CacheOf(env, inputs, v);
      var on, back := After(env, inputs, v, ScrollBy(1, unit), place), After(env, inputs, v, ScrollBy(-1, unit), place);
      var lines := match unit case Step => 1 case HalfPage => v.height / 2 case Page => v.height;
      && on.scrollTop == Min(place.scrollTop + lines, c.geometry.MaxScrollTop())
      && (place.scrollTop <= c.geometry.MaxScrollTop() ==> back.scrollTop == Monus(place.scrollTop, lines))
      && SelectedFromView(c, v, on) && SelectedFromView(c, v, back)
      && on.horizontal == back.horizontal == place.horizontal
  {
    hide CacheOf, FromView, SelectedFromView;
    var c := CacheOf(env, inputs, v);
    SignedSteps(place.scrollTop, Amount(unit, v.height));
    forall p { ViewSelects(c, v, p); }
  }

  /** The cursor is on the row nearest to the middle of the view. */
  ghost predicate SelectedFromView(c: Cache, v: Viewport, to: Place) {
    var middle := Min(to.scrollTop + v.height / 2, Monus(c.geometry.totalHeight, 1));
    if NothingSelectable(c) then to.cursor == NO_CURSOR
    else exists i: nat :: SelectableAt(c, i) && On(c, i, to) && NearestTo(c, i, middle)
  }

  lemma ViewSelects(c: Cache, v: Viewport, place: Place)
    ensures var to := FromView(c, v, place);
      to.scrollTop == place.scrollTop && to.horizontal == place.horizontal && SelectedFromView(c, v, to)
  {
    hide FromView;
    NearestIsSelected(c, v, place);
  }

  /** Sideways by a cell, from the start of the lines to the end of the longest. */
  lemma ScrollsAside(env: Env, inputs: Inputs, v: Viewport, place: Place)
    requires place.horizontal <= MaxHorizontal(env, inputs, CacheOf(env, inputs, v), v)
    ensures var most := MaxHorizontal(env, inputs, CacheOf(env, inputs, v), v);
      && After(env, inputs, v, ScrollSideways(1), place) == place.(horizontal := Min(place.horizontal + 1, most))
      && After(env, inputs, v, ScrollSideways(-1), place) == place.(horizontal := Monus(place.horizontal, 1))
  {
    hide CacheOf, MaxHorizontal;
    SignedSteps(place.horizontal, 1);
  }

  /** A side asked for gets the focus unless the selected row shows only the other; nothing else moves. */
  lemma FocusIsTaken(env: Env, inputs: Inputs, v: Viewport, side: Side, place: Place)
    ensures var c, to := CacheOf(env, inputs, v), After(env, inputs, v, Focus(side), place);
      && to == place.(focus := to.focus)
      && (to.focus != side <==>
            var row := SelectedRow(c, place.cursor);
            row.Some? && row.value.Line? && RowCells(row.value.row, side) == []
              && RowCells(row.value.row, to.focus) != [])
  {
    hide CacheOf, SelectedRow, Focused;
    FocusIsGiven(CacheOf(env, inputs, v), side, place);
  }

  // ---- Files and hunks --------------------------------------------------------------------

  lemma TargetedLands(env: Env, inputs: Inputs, v: Viewport, fileId: string, hunk: nat, place: Place)
    requires DistinctFiles(inputs.files)
    ensures IsVisible(env, inputs, fileId) && TargetRow(CacheOf(env, inputs, v), fileId, hunk).Some? ==>
      Reaches(Targeted(env, inputs, v, fileId, hunk, place), fileId, hunk)
  {
    hide CacheOf, MaxHorizontal, RebuiltScroll, RebuiltCursor, TargetRow, FocusAt, IsVisible, DistinctFiles;
    Controller.TargetIsReachedIff(env, inputs, v, fileId, hunk);
    var c := CacheOf(env, inputs, v);
    var asked := Cursor(Some(fileId), Some(hunk), None);
    assert RebuiltPlace(env, inputs, v, None, place.(cursor := asked)).cursor
        == RebuiltCursor(c, None, FileToFind(c, StaysVisible(env, inputs, asked), asked));
    TargetIsRow(c);
  }

  lemma TargetIsRow(c: Cache)
    ensures forall fileId, hunk :: TargetRow(c, fileId, hunk).Some? ==>
      TargetRow(c, fileId, hunk).value < |c.geometry.rows|
  {
    hide RowFor;
  }

  predicate Reaches(place: Place, fileId: string, hunk: nat) {
    place.cursor.file == Some(fileId) && place.cursor.hunk == Some(hunk)
  }

  /** The rows of this hunk can be selected. */
  ghost predicate HasRow(env: Env, inputs: Inputs, v: Viewport, fileId: string, hunk: nat) {
    var c := CacheOf(env, inputs, v);
    exists i: nat :: OfHunk(c, i, fileId, hunk)
  }

  lemma VisibleIsReached(env: Env, inputs: Inputs, v: Viewport, k: nat, hunk: nat, place: Place)
    requires DistinctFiles(inputs.files) && k < |VisibleFiles(env, inputs.files, inputs.filter)|
    ensures var id := VisibleFiles(env, inputs.files, inputs.filter)[k].id;
      HasRow(env, inputs, v, id, hunk) ==> Reaches(Targeted(env, inputs, v, id, hunk, place), id, hunk)
  {
    hide CacheOf, Targeted, TargetRow, OfHunk, DistinctFiles, VisibleFiles, Reaches;
    Controller.VisibleCanBeFound(env, inputs, k);
    TargetedLands(env, inputs, v, VisibleFiles(env, inputs.files, inputs.filter)[k].id, hunk, place);
  }

  lemma CacheShowsVisible(env: Env, inputs: Inputs, v: Viewport)
    ensures CacheOf(env, inputs, v).visible == VisibleFiles(env, inputs.files, inputs.filter)
  {
    hide VisibleFiles, PlannedAll, TrailerOf, GeometryOf, ShapeOf;
  }

  /** From a visible file, to the first hunk of the next one, the first after the last; and back. */
  lemma FileSteps(env: Env, inputs: Inputs, v: Viewport, k: nat, place: Place)
    requires DistinctFiles(inputs.files) && k < |VisibleFiles(env, inputs.files, inputs.filter)|
    requires place.cursor.file == Some(VisibleFiles(env, inputs.files, inputs.filter)[k].id)
    requires forall j :: 0 <= j < k ==>
      VisibleFiles(env, inputs.files, inputs.filter)[j].id != VisibleFiles(env, inputs.files, inputs.filter)[k].id
    ensures var visible := VisibleFiles(env, inputs.files, inputs.filter);
      var next := visible[if k + 1 < |visible| then k + 1 else 0].id;
      var previous := visible[if k > 0 then k - 1 else |visible| - 1].id;
      && (HasRow(env, inputs, v, next, 0) ==> Reaches(After(env, inputs, v, FileBy(1), place), next, 0))
      && (HasRow(env, inputs, v, previous, 0) ==> Reaches(After(env, inputs, v, FileBy(-1), place), previous, 0))
  {
    hide CacheOf, Targeted, DistinctFiles, VisibleFiles, HasRow, Reaches, WrappingIndex, IdPosition;
    CacheShowsVisible(env, inputs, v);
    var visible := VisibleFiles(env, inputs.files, inputs.filter);
    var ids := VisibleIds(visible);
    FirstId(ids, k);
    WrappingSteps(k, |ids|);
    VisibleIsReached(env, inputs, v, if k + 1 < |visible| then k + 1 else 0, 0, place);
    VisibleIsReached(env, inputs, v, if k > 0 then k - 1 else |visible| - 1, 0, place);
  }

  lemma FirstId(ids: seq<string>, k: nat)
    requires k < |ids| && forall j :: 0 <= j < k ==> ids[j] != ids[k]
    ensures IdPosition(ids, Some(ids[k])) == k
  {
    var ok := (i: nat) => i < |ids| && Some(ids[i]) == Some(ids[k]);
    assert ok(k) && forall j: nat :: j < k ==> !ok(j);
    assert First(|ids|, ok) == Some(k);
  }

  /** From a hunk, to the next one of the visible files in order, the first after the last; and back. */
  lemma HunkSteps(env: Env, inputs: Inputs, v: Viewport, p: nat, place: Place)
    requires DistinctFiles(inputs.files)
    requires var targets := HunkTargets(VisibleFiles(env, inputs.files, inputs.filter));
      p < |targets| && Reaches(place, targets[p].0, targets[p].1) && forall j :: 0 <= j < p ==> targets[j] != targets[p]
    ensures var targets := HunkTargets(VisibleFiles(env, inputs.files, inputs.filter));
      var next, previous := targets[if p + 1 < |targets| then p + 1 else 0],
                            targets[if p > 0 then p - 1 else |targets| - 1];
      && (HasRow(env, inputs, v, next.0, next.1) ==>
            Reaches(After(env, inputs, v, HunkBy(1), place), next.0, next.1))
      && (HasRow(env, inputs, v, previous.0, previous.1) ==>
            Reaches(After(env, inputs, v, HunkBy(-1), place), previous.0, previous.1))
  {
    hide CacheOf, Targeted, DistinctFiles, VisibleFiles, HasRow, WrappingIndex, TargetPosition, HunkTargets;
    CacheShowsVisible(env, inputs, v);
    var targets := HunkTargets(VisibleFiles(env, inputs.files, inputs.filter));
    FirstTarget(targets, p, place.cursor);
    WrappingSteps(p, |targets|);
    HunkIsReached(env, inputs, v, if p + 1 < |targets| then p + 1 else 0, place);
    HunkIsReached(env, inputs, v, if p > 0 then p - 1 else |targets| - 1, place);
    hide Reaches;
  }

  lemma HunkIsReached(env: Env, inputs: Inputs, v: Viewport, q: nat, place: Place)
    requires DistinctFiles(inputs.files) && q < |HunkTargets(VisibleFiles(env, inputs.files, inputs.filter))|
    ensures var (file, hunk) := HunkTargets(VisibleFiles(env, inputs.files, inputs.filter))[q];
      HasRow(env, inputs, v, file, hunk) ==> Reaches(Targeted(env, inputs, v, file, hunk, place), file, hunk)
  {
    hide Targeted, DistinctFiles, VisibleFiles, HasRow, HunkTargets, Reaches;
    var visible := VisibleFiles(env, inputs.files, inputs.filter);
    Controller.TargetsAreVisible(visible, q);
    var k :| 0 <= k < |visible| && visible[k].id == HunkTargets(visible)[q].0;
    VisibleIsReached(env, inputs, v, k, HunkTargets(visible)[q].1, place);
  }

  lemma FirstTarget(targets: seq<(string, nat)>, p: nat, cursor: Cursor)
    requires p < |targets| && cursor.file == Some(targets[p].0) && cursor.hunk == Some(targets[p].1)
    requires forall j :: 0 <= j < p ==> targets[j] != targets[p]
    ensures TargetPosition(targets, cursor) == p
  {
    var ok := (i: nat) => i < |targets| && Some(targets[i].0) == cursor.file && Some(targets[i].1) == cursor.hunk;
    assert ok(p) && forall j: nat :: j < p ==> !ok(j);
    assert First(|targets|, ok) == Some(p);
  }

  /** A visible file that is asked for is gone to, on its first hunk; a hidden one moves nothing. */
  lemma FileIsPicked(env: Env, inputs: Inputs, v: Viewport, fileId: string, place: Place)
    requires DistinctFiles(inputs.files)
    ensures var visible := VisibleFiles(env, inputs.files, inputs.filter);
      var to := After(env, inputs, v, PickFile(fileId), place);
      if exists k :: 0 <= k < |visible| && visible[k].id == fileId
      then HasRow(env, inputs, v, fileId, 0) ==> Reaches(to, fileId, 0) else to == place
  {
    hide CacheOf, Targeted, DistinctFiles, VisibleFiles, HasRow, Reaches;
    CacheShowsVisible(env, inputs, v);
    var visible := VisibleFiles(env, inputs.files, inputs.filter);
    var ids := VisibleIds(visible);
    assert forall k :: 0 <= k < |visible| ==> ids[k] == visible[k].id;
    if fileId in ids {
      var k :| 0 <= k < |ids| && ids[k] == fileId;
      VisibleIsReached(env, inputs, v, k, 0, place);
    }
  }
}
