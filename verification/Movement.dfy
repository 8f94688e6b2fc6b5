/** Actions on a review: what each makes of the inputs, and where it takes the reader. */
module Movement {
  import opened Text
  import opened DiffModel
  import opened Context
  import opened Rows
  import opened Plan
  import opened Geometry
  import opened Anchor
  import opened ControllerModel

  datatype ScrollUnit = Step | HalfPage | Page

  function Amount(unit: ScrollUnit, height: nat): nat {
    match unit
    case Step => 1
    case HalfPage => Max(height / 2, 1)
    case Page => Max(height, 1)
  }

  datatype Action =
    | ScrollBy(delta: int, unit: ScrollUnit) | ScrollSideways(delta: int) | CursorBy(delta: int) | Focus(side: Side)
    | Top | Bottom | HunkBy(delta: int) | FileBy(delta: int) | NoteBy(delta: int)
    | PickFile(fileId: string) | PickNote(noteId: string)
    | SetFilter(filter: string) | SetLayout(layout: LayoutMode) | ToggleSidebar | ToggleLineNumbers | ToggleWrap
    | ToggleHunkHeaders | ToggleAgentNotes | ToggleTestFiles | ToggleViewed | ExpandSelected | Expand(fileId: string)
    | Application

  datatype Effect = Nothing | Redraw | ViewedChanged(path: string, viewed: bool) | Forwarded

  /** Refused when the review is only a pager. */
  predicate ApplicationOnly(action: Action) {
    action.SetFilter? || action.SetLayout? || action.ToggleLineNumbers? || action.ToggleHunkHeaders?
      || action.ToggleAgentNotes?
    || action.NoteBy? || action.PickFile? || action.Application?
  }

  predicate IsSetting(action: Action) {
    action.SetFilter? || action.SetLayout? || action.ToggleSidebar? || action.ToggleLineNumbers? || action.ToggleWrap?
    || action.ToggleHunkHeaders? || action.ToggleAgentNotes? || action.ToggleTestFiles?
  }

  predicate ChangesViewed(action: Action) { action.ToggleViewed? || action.ExpandSelected? || action.Expand? }

  /** What an action makes of the inputs; moving and scrolling leave them alone. */
  function NextInputs(env: Env, i: Inputs, v: Viewport, action: Action): Inputs {
    if i.options.pagerMode && ApplicationOnly(action) then i else
      match action
      case SetFilter(filter) => i.(filter := filter)
      case SetLayout(layout) => i.(options := i.options.(layout := layout))
      case ToggleSidebar => i.(sidebarOverride := Some(!ShapeOf(i, v).sidebar))
      case ToggleLineNumbers => i.(options := i.options.(lineNumbers := !i.options.lineNumbers))
      case ToggleWrap => i.(options := i.options.(wrapLines := !i.options.wrapLines))
      case ToggleHunkHeaders => i.(options := i.options.(hunkHeaders := !i.options.hunkHeaders))
      case ToggleAgentNotes => i.(options := i.options.(agentNotes := !i.options.agentNotes))
      case ToggleTestFiles => i.(testsCompacted := !i.testsCompacted, expandedTests := {})
      case _ => i
  }

  /** The file whose viewed mark is toggled: the compacted one under the cursor, or the selected one. */
  function FileToToggle(i: Inputs, cursor: Cursor): Option<DiffFile> {
    var id := if cursor.key.Some? && cursor.key.value.kind == CompactedKind then Some(cursor.key.value.fileId)
      else cursor.file;
    if id.Some? then FileById(i.files, id.value) else None
  }

  function ViewToggled(i: Inputs, fileId: string): Inputs {
    if fileId in i.viewed then i.(viewed := i.viewed - {fileId}, expandedTests := i.expandedTests + {fileId})
    else i.(viewed := i.viewed + {fileId})
  }

  function Expanded(i: Inputs, fileId: string): Inputs {
    i.(viewed := i.viewed - {fileId}, expandedTests := i.expandedTests + {fileId})
  }

  // ---- Looking rows up --------------------------------------------------------------------

  predicate NoteAt(c: Cache, i: nat, noteId: string) {
    i < |c.geometry.rows| && c.geometry.rows[i].key.kind == NoteKind && c.geometry.rows[i].key.noteId == Some(noteId)
  }

  /** The row the selected key names. */
  function SelectedRow(c: Cache, cursor: Cursor): Option<Row> {
    if cursor.key.Some? && RowByKey(c.geometry, cursor.key.value).Some?
    then RowFor(c, RowByKey(c.geometry, cursor.key.value).value) else None
  }

  function VisibleIds(visible: seq<DiffFile>): (ids: seq<string>)
    ensures |ids| == |visible|
  {
    seq(|visible|, i requires 0 <= i < |visible| => visible[i].id)
  }

  function IdPosition(ids: seq<string>, id: Option<string>): nat {
    var found := First(|ids|, (i: nat) => i < |ids| && Some(ids[i]) == id);
    if found.Some? then found.value else 0
  }

  function FileTargets(file: DiffFile): (targets: seq<(string, nat)>)
    ensures |targets| == |file.hunks| && forall i :: 0 <= i < |targets| ==> targets[i] == (file.id, i)
  {
    seq(|file.hunks|, i requires 0 <= i < |file.hunks| => (file.id, i))
  }

  function HunkTargets(visible: seq<DiffFile>): seq<(string, nat)> {
    if visible == [] then [] else HunkTargets(visible[..|visible| - 1]) + FileTargets(visible[|visible| - 1])
  }

  function TargetPosition(targets: seq<(string, nat)>, cursor: Cursor): nat {
    var found := First(|targets|, (i: nat) => i < |targets| && Some(targets[i].0) == cursor.file
      && Some(targets[i].1) == cursor.hunk);
    if found.Some? then found.value else 0
  }

  // ---- Where an action takes the reader ---------------------------------------------------

  /** On a row. */
  function Selecting(c: Cache, i: nat, place: Place): Place {
    if i < |c.geometry.rows|
    then place.(cursor := CursorAt(c.geometry.rows[i]), focus := FocusAt(c, Some(i), place.focus)) else place
  }

  /** With the selected row in view. */
  function Revealing(c: Cache, v: Viewport, place: Place): Place {
    if place.cursor.key.Some? && RowByKey(c.geometry, place.cursor.key.value).Some?
    then
      var bound := RowByKey(c.geometry, place.cursor.key.value).value;
      place.(scrollTop := Min(Revealed(bound, place.scrollTop, v.height), c.geometry.MaxScrollTop()))
    else place
  }

  /** On the row nearest to the middle of the view. */
  function FromView(c: Cache, v: Viewport, place: Place): Place {
    match FromViewport(c, place.scrollTop, v.height)
    case Some(i) => Selecting(c, i, place)
    case None => place.(cursor := NO_CURSOR)
  }

  function Scrolled(c: Cache, v: Viewport, delta: int, unit: ScrollUnit, place: Place): Place {
    FromView(c, v, place.(scrollTop := Min(SignedOffset(place.scrollTop, delta, Amount(unit, v.height)),
                                           c.geometry.MaxScrollTop())))
  }

  function CursorMoved(c: Cache, v: Viewport, delta: int, place: Place): Place {
    var rows := SelectableRows(c, |c.geometry.rows|);
    if rows == [] then place else
      var next := Min(SignedOffset(PositionOf(c, rows, place.cursor.key, 0), delta, 1), |rows| - 1);
      Revealing(c, v, Selecting(c, rows[next], place))
  }

  function NoteMoved(c: Cache, v: Viewport, delta: int, place: Place): Place {
    var notes := NoteIndices(c, |c.geometry.rows|);
    if notes == [] then place else
      var from := PositionOf(c, notes, place.cursor.key, if delta < 0 then 0 else |notes| - 1);
      Revealing(c, v, Selecting(c, notes[WrappingIndex(from, |notes|, delta)], place))
  }

  function NotePicked(c: Cache, v: Viewport, noteId: string, place: Place): Place {
    match First(|c.geometry.rows|, (i: nat) => NoteAt(c, i, noteId))
    case Some(i) => Revealing(c, v, Selecting(c, i, place))
    case None => place
  }

  function AtTop(c: Cache, place: Place): Place {
    match FirstSelectable(c)
    case Some(i) => Selecting(c, i, place).(scrollTop := 0)
    case None => place
  }

  function AtBottom(c: Cache, place: Place): Place {
    var rows := SelectableRows(c, |c.geometry.rows|);
    if rows == [] then place else Selecting(c, rows[|rows| - 1], place).(scrollTop := c.geometry.MaxScrollTop())
  }

  function Focused(c: Cache, side: Side, place: Place): Place {
    place.(focus := match SelectedRow(c, place.cursor)
      case Some(row) => Snapped(side, AvailableSides(row))
      case None => side)
  }

  /** On a hunk of a file, a line below the top of the view: after a rebuild that looks for the file. */
  function Targeted(env: Env, inputs: Inputs, v: Viewport, fileId: string, hunk: nat, place: Place): Place {
    var c := CacheOf(env, inputs, v);
    var found := RebuiltPlace(env, inputs, v, None, place.(cursor := Cursor(Some(fileId), Some(hunk), None)));
    match TargetRow(c, if found.cursor.file.Some? then found.cursor.file.value else "", hunk)
    case None => found
    case Some(i) =>
      var landed := Selecting(c, i, found);
      var row := if landed.cursor.key.Some? then RowByKey(c.geometry, landed.cursor.key.value) else None;
      if row.Some? then landed.(scrollTop := Min(Monus(row.value.top, 1), c.geometry.MaxScrollTop())) else landed
  }

  function FileMoved(env: Env, inputs: Inputs, v: Viewport, delta: int, place: Place): Place {
    var ids := VisibleIds(CacheOf(env, inputs, v).visible);
    if ids == [] then place
    else Targeted(env, inputs, v, ids[WrappingIndex(IdPosition(ids, place.cursor.file), |ids|, delta)], 0, place)
  }

  function HunkMoved(env: Env, inputs: Inputs, v: Viewport, delta: int, place: Place): Place {
    var targets := HunkTargets(CacheOf(env, inputs, v).visible);
    if targets == [] then place else
      var (file, hunk) := targets[WrappingIndex(TargetPosition(targets, place.cursor), |targets|, delta)];
      Targeted(env, inputs, v, file, hunk, place)
  }

  function FilePicked(env: Env, inputs: Inputs, v: Viewport, fileId: string, place: Place): Place {
    if fileId in VisibleIds(CacheOf(env, inputs, v).visible) then Targeted(env, inputs, v, fileId, 0, place) else place
  }

  predicate IsMove(action: Action) {
    !IsSetting(action) && !ChangesViewed(action) && !action.Application?
  }

  /** Where a movement takes the reader, from a place in the up-to-date geometry. */
  function Moved(env: Env, inputs: Inputs, v: Viewport, action: Action, place: Place): Place {
    var c := CacheOf(env, inputs, v);
    match action
    case ScrollBy(delta, unit) => Scrolled(c, v, delta, unit, place)
    case ScrollSideways(delta) =>
      place.(horizontal := Min(SignedOffset(place.horizontal, delta, 1), MaxHorizontal(env, inputs, c, v)))
    case CursorBy(delta) => CursorMoved(c, v, delta, place)
    case Focus(side) => Focused(c, side, place)
    case Top => AtTop(c, place)
    case Bottom => AtBottom(c, place)
    case HunkBy(delta) => HunkMoved(env, inputs, v, delta, place)
    case FileBy(delta) => FileMoved(env, inputs, v, delta, place)
    case NoteBy(delta) => NoteMoved(c, v, delta, place)
    case PickFile(fileId) => FilePicked(env, inputs, v, fileId, place)
    case PickNote(noteId) => NotePicked(c, v, noteId, place)
    case _ => place
  }

  /** Where a changed input leaves the reader: where a rebuild that keeps the view anchored does. */
  function Changed(env: Env, before: Inputs, after: Inputs, v: Viewport, place: Place): Place {
    RebuiltPlace(env, after, v, AnchorOf(Some(CacheOf(env, before, v)), place), place)
  }

  function SettingPlace(env: Env, inputs: Inputs, v: Viewport, action: Action, place: Place): Place {
    Changed(env, inputs, NextInputs(env, inputs, v, action), v,
            if action.ToggleWrap? && !inputs.options.wrapLines then place.(horizontal := 0) else place)
  }

  /** Marking the file under the cursor viewed moves on to the next file; unmarking it stays. */
  function ViewToggledPlace(env: Env, inputs: Inputs, v: Viewport, place: Place): Place {
    match FileToToggle(inputs, place.cursor)
    case None => place
    case Some(file) =>
      var after := ViewToggled(inputs, file.id);
      var changed := Changed(env, inputs, after, v, place);
      if file.id in after.viewed then FileMoved(env, after, v, 1, changed) else changed
  }

  function ExpandedPlace(env: Env, inputs: Inputs, v: Viewport, fileId: string, place: Place): Place {
    match FileById(inputs.files, fileId)
    case Some(file) =>
      if IsCompacted(env, inputs, file) then Changed(env, inputs, Expanded(inputs, fileId), v, place) else place
    case None => place
  }

  /** Where an action that is not refused takes the reader, from a place in the up-to-date geometry. */
  function After(env: Env, inputs: Inputs, v: Viewport, action: Action, place: Place): Place {
    match action
    case ToggleViewed => ViewToggledPlace(env, inputs, v, place)
    case ExpandSelected =>
      if place.cursor.key.Some? && place.cursor.key.value.kind == CompactedKind
      then ExpandedPlace(env, inputs, v, place.cursor.key.value.fileId, place) else place
    case Expand(fileId) => ExpandedPlace(env, inputs, v, fileId, place)
    case Application => place
    case _ => if IsSetting(action) then SettingPlace(env, inputs, v, action, place)
      else Moved(env, inputs, v, action, place)
  }
}
