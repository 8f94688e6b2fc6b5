/** What the review controller derives from its inputs, and how it chooses a row to select. */
module ControllerModel {
  import opened Text
  import opened DiffModel
  import opened Emphasis
  import opened Context
  import opened Rows
  import opened Plan
  import opened Notes
  import opened Geometry
  import opened Anchor

  const SPLIT_MIN_WIDTH: nat := 160
  const FULL_MIN_WIDTH: nat := 220
  const MIN_SIDEBAR_WIDTH: nat := 20
  const DEFAULT_SIDEBAR_WIDTH: nat := 34
  const MIN_CONTENT_WIDTH: nat := 40
  const SIDEBAR_DIVIDER_WIDTH: nat := 1

  datatype LayoutMode = AutoLayout | AlwaysSplit | AlwaysStack

  datatype Viewport = Viewport(width: nat, height: nat)

  datatype Options = Options(layout: LayoutMode, showSidebar: bool, lineNumbers: bool, wrapLines: bool,
                             hunkHeaders: bool, agentNotes: bool, pagerMode: bool, testsLast: bool)

  /** A note, thread, question or draft; `gated` ones hide with the agent notes. */
  datatype ReviewNote = ReviewNote(id: string, target: NoteTarget, text: string, gated: bool, fileLevel: bool,
                                   draft: Option<(nat, string)>)

  /** A thread that found no place in the diff. */
  datatype UnplacedThread = UnplacedThread(path: string, id: string, text: string)

  /** Everything plans and geometry depend on, besides the viewport. */
  datatype Inputs = Inputs(
    files: seq<DiffFile>, options: Options, filter: string, contexts: map<string, FileContext>,
    notes: seq<ReviewNote>, unplaced: seq<UnplacedThread>, testsCompacted: bool, expandedTests: set<string>,
    viewed: set<string>, sidebarOverride: Option<bool>, sidebarWidth: nat)

  /** Character widths, the line differ, filter matching and the test-file patterns. */
  datatype Env = Env(w: CellWidth, diff: Differ, matches: (DiffFile, string) -> bool,
                     pathMatches: (string, string) -> bool, isTest: string -> bool)

  // ---- Plans from inputs ------------------------------------------------------------------

  /** The layout, sidebar and content width a viewport gives. */
  datatype Shape = Shape(layout: Layout, sidebar: bool, contentWidth: nat)

  function EffectiveLayout(mode: LayoutMode, width: nat): Layout {
    match mode
    case AlwaysSplit => SplitLayout
    case AlwaysStack => StackLayout
    case AutoLayout => if width < SPLIT_MIN_WIDTH then StackLayout else SplitLayout
  }

  function ShapeOf(inputs: Inputs, v: Viewport): Shape {
    var sidebar := if inputs.sidebarOverride.Some? then inputs.sidebarOverride.value
                   else inputs.options.showSidebar && v.width >= FULL_MIN_WIDTH;
    Shape(EffectiveLayout(inputs.options.layout, v.width), sidebar,
          if sidebar then Monus(v.width, inputs.sidebarWidth + SIDEBAR_DIVIDER_WIDTH) else v.width)
  }

  predicate IsCompacted(env: Env, inputs: Inputs, file: DiffFile) {
    file.id in inputs.viewed
    || (inputs.testsCompacted && env.isTest(file.path) && file.id !in inputs.expandedTests)
  }

  function CardOf(env: Env, note: ReviewNote, shape: Shape): NoteCard {
    if note.draft.Some?
    then DraftCard(env.w, note.id, note.target, note.text, note.draft.value.0, note.draft.value.1, shape.layout,
      shape.contentWidth)
    else TextCard(env.w, note.id, note.target, note.text, shape.layout, shape.contentWidth)
  }

  predicate ShowsNote(note: ReviewNote, fileId: string, fileLevel: bool, agentNotes: bool) {
    note.target.fileId == fileId && note.fileLevel == fileLevel && (agentNotes || !note.gated)
  }

  function CardsFor(env: Env, notes: seq<ReviewNote>, fileId: string, fileLevel: bool, agentNotes: bool,
                    shape: Shape): seq<NoteCard> {
    if notes == [] then [] else
      var last := notes[|notes| - 1];
      CardsFor(env, notes[..|notes| - 1], fileId, fileLevel, agentNotes, shape)
        + (if ShowsNote(last, fileId, fileLevel, agentNotes) then [CardOf(env, last, shape)] else [])
  }

  function ContextOf(inputs: Inputs, fileId: string): Option<FileContext> {
    if fileId in inputs.contexts then Some(inputs.contexts[fileId]) else None
  }

  function NotedPlan(env: Env, inputs: Inputs, shape: Shape, file: DiffFile): RowPlan {
    WithNotes(file.id,
      PlanWithContext(file, shape.layout, inputs.options.hunkHeaders, env.diff, ContextOf(inputs, file.id)),
      CardsFor(env, inputs.notes, file.id, true, inputs.options.agentNotes, shape),
      CardsFor(env, inputs.notes, file.id, false, inputs.options.agentNotes, shape))
  }

  function PlannedOf(env: Env, inputs: Inputs, shape: Shape, file: DiffFile): PlannedFile {
    if IsCompacted(env, inputs, file) then PlannedFile(file.id, CompactedPlan(file), true)
    else PlannedFile(file.id, NotedPlan(env, inputs, shape, file), false)
  }

  function VisibleFiles(env: Env, files: seq<DiffFile>, filter: string): seq<DiffFile> {
    if files == [] then [] else
      var last := files[|files| - 1];
      VisibleFiles(env, files[..|files| - 1], filter) + (if env.matches(last, filter) then [last] else [])
  }

  function PlannedAll(env: Env, inputs: Inputs, shape: Shape, visible: seq<DiffFile>): (planned: seq<PlannedFile>)
    ensures |planned| == |visible|
  {
    if visible == [] then [] else
      PlannedAll(env, inputs, shape, visible[..|visible| - 1])
      + [PlannedOf(env, inputs, shape, visible[|visible| - 1])]
  }

  function UnplacedCard(env: Env, thread: UnplacedThread, width: nat): NoteCard {
    TextCard(env.w, thread.id, NoteTarget("github:unplaced:" + thread.id, None, None, None, None, None), thread.text,
      StackLayout, width)
  }

  function TrailerNotes(env: Env, unplaced: seq<UnplacedThread>, filter: string, width: nat): seq<Row> {
    if unplaced == [] then [] else
      var last := unplaced[|unplaced| - 1];
      var card := UnplacedCard(env, last, width);
      TrailerNotes(env, unplaced[..|unplaced| - 1], filter, width)
        + (if env.pathMatches(last.path, filter) then [NoteRow(card.target.fileId, card)] else [])
  }

  function TrailerOf(env: Env, inputs: Inputs, shape: Shape): Option<RowPlan> {
    var rows := TrailerNotes(env, inputs.unplaced, inputs.filter, shape.contentWidth);
    if rows == [] then None else Some(RowPlan(rows, [], 1))
  }

  function GeometryOptionsOf(inputs: Inputs, shape: Shape, v: Viewport): GeometryOptions {
    GeometryOptions(shape.contentWidth, v.height, inputs.options.lineNumbers, inputs.options.wrapLines)
  }

  /** What is cached between rebuilds. */
  datatype Cache = Cache(visible: seq<DiffFile>, shape: Shape, planned: seq<PlannedFile>, trailer: Option<RowPlan>,
                         geometry: ReviewGeometry)

  function CacheOf(env: Env, inputs: Inputs, v: Viewport): Cache {
    var visible, shape := VisibleFiles(env, inputs.files, inputs.filter), ShapeOf(inputs, v);
    var planned, trailer := PlannedAll(env, inputs, shape, visible), TrailerOf(env, inputs, shape);
    Cache(visible, shape, planned, trailer, GeometryOf(env.w, planned, trailer, GeometryOptionsOf(inputs, shape, v)))
  }

  // ---- Building them ----------------------------------------------------------------------

  method BuildCards(env: Env, notes: seq<ReviewNote>, fileId: string, fileLevel: bool, agentNotes: bool, shape: Shape)
    returns (cards: seq<NoteCard>)
    ensures cards == CardsFor(env, notes, fileId, fileLevel, agentNotes, shape)
  {
    cards := [];
    for i := 0 to |notes|
      invariant cards == CardsFor(env, notes[..i], fileId, fileLevel, agentNotes, shape)
    {
      hide CardOf;
      assert notes[..i + 1][..i] == notes[..i];
      if ShowsNote(notes[i], fileId, fileLevel, agentNotes) {
        cards := cards + [CardOf(env, notes[i], shape)];
      }
    }
    assert notes[..|notes|] == notes;
  }

  method BuildPlanned(env: Env, inputs: Inputs, shape: Shape, file: DiffFile) returns (planned: PlannedFile)
    ensures planned == PlannedOf(env, inputs, shape, file)
  {
    hide IsCompacted, PlanWithContext, WithNotes, CardsFor, CompactedPlan;
    if IsCompacted(env, inputs, file) {
      return PlannedFile(file.id, CompactedPlan(file), true);
    }
    var plan := BuildRowPlanWithContext(file, shape.layout, inputs.options.hunkHeaders, env.diff,
      ContextOf(inputs, file.id));
    var top := BuildCards(env, inputs.notes, file.id, true, inputs.options.agentNotes, shape);
    var cards := BuildCards(env, inputs.notes, file.id, false, inputs.options.agentNotes, shape);
    plan := WeaveNotes(file.id, plan, top, cards);
    planned := PlannedFile(file.id, plan, false);
  }

  method BuildTrailer(env: Env, inputs: Inputs, shape: Shape) returns (trailer: Option<RowPlan>)
    ensures trailer == TrailerOf(env, inputs, shape)
  {
    var rows := [];
    for i := 0 to |inputs.unplaced|
      invariant rows == TrailerNotes(env, inputs.unplaced[..i], inputs.filter, shape.contentWidth)
    {
      hide UnplacedCard, NoteRow;
      assert inputs.unplaced[..i + 1][..i] == inputs.unplaced[..i];
      var thread := inputs.unplaced[i];
      if env.pathMatches(thread.path, inputs.filter) {
        var card := UnplacedCard(env, thread, shape.contentWidth);
        rows := rows + [NoteRow(card.target.fileId, card)];
      }
    }
    assert inputs.unplaced[..|inputs.unplaced|] == inputs.unplaced;
    trailer := if rows == [] then None else Some(RowPlan(rows, [], 1));
  }

  method BuildCache(env: Env, inputs: Inputs, v: Viewport) returns (cache: Cache)
    ensures cache == CacheOf(env, inputs, v)
  {
    hide PlannedOf, TrailerOf, GeometryOf, ShapeOf;
    var visible := [];
    for i := 0 to |inputs.files|
      invariant visible == VisibleFiles(env, inputs.files[..i], inputs.filter)
    {
      assert inputs.files[..i + 1][..i] == inputs.files[..i];
      if env.matches(inputs.files[i], inputs.filter) {
        visible := visible + [inputs.files[i]];
      }
    }
    assert inputs.files[..|inputs.files|] == inputs.files;
    var shape := ShapeOf(inputs, v);
    var planned := [];
    for i := 0 to |visible|
      invariant planned == PlannedAll(env, inputs, shape, visible[..i])
    {
      assert visible[..i + 1][..i] == visible[..i];
      var file := BuildPlanned(env, inputs, shape, visible[i]);
      planned := planned + [file];
    }
    assert visible[..|visible|] == visible;
    var trailer := BuildTrailer(env, inputs, shape);
    var geometry := BuildReviewGeometry(env.w, planned, trailer, GeometryOptionsOf(inputs, shape, v));
    cache := Cache(visible, shape, planned, trailer, geometry);
  }

  // ---- Rows of the geometry ---------------------------------------------------------------

  function RowFor(c: Cache, bound: RowBounds): Option<Row> {
    match bound.owner
    case FileOwner(i) =>
      if i < |c.planned| && bound.rowIndex < |c.planned[i].plan.rows| then Some(c.planned[i].plan.rows[bound.rowIndex])
        else None
    case TrailerOwner =>
      if c.trailer.Some? && bound.rowIndex < |c.trailer.value.rows| then Some(c.trailer.value.rows[bound.rowIndex])
        else None
  }

  predicate SelectableAt(c: Cache, i: nat) {
    i < |c.geometry.rows| && RowFor(c, c.geometry.rows[i]).Some? && RowFor(c, c.geometry.rows[i]).value.IsSelectable()
  }

  function AvailableSides(row: Row): (bool, bool) {
    match row
    case Line(Split(_, left, right)) => (left.kind != EmptyCell, right.kind != EmptyCell)
    case Line(Stack(_, cell)) =>
      (cell.kind == DeletionCell || cell.kind == ContextCell, cell.kind == AdditionCell || cell.kind == ContextCell)
    case _ => (false, false)
  }

  function Snapped(side: Side, sides: (bool, bool)): Side {
    if sides == (true, false) then Old else if sides == (false, true) then New else side
  }

  // ---- Choosing a row ---------------------------------------------------------------------

  /** The first of the rows `ok` accepts that costs least. */
  function Cheapest(n: nat, ok: nat -> bool, cost: nat -> nat): (best: Option<nat>)
    ensures best.Some? ==> best.value < n && ok(best.value)
    ensures best.Some? ==> forall i :: 0 <= i < n && ok(i) ==>
      cost(best.value) <= cost(i) && (cost(i) == cost(best.value) ==> best.value <= i)
    ensures best.None? ==> forall i :: 0 <= i < n ==> !ok(i)
  {
    if n == 0 then None else
      var before := Cheapest(n - 1, ok, cost);
      if ok(n - 1) && (before.None? || cost(n - 1) < cost(before.value)) then Some(n - 1) else before
  }

  function First(n: nat, ok: nat -> bool): (first: Option<nat>)
    ensures first.Some? ==> first.value < n && ok(first.value) && forall i :: 0 <= i < first.value ==> !ok(i)
    ensures first.None? ==> forall i :: 0 <= i < n ==> !ok(i)
  {
    if n == 0 then None else
      var before := First(n - 1, ok);
      if before.Some? then before else if ok(n - 1) then Some(n - 1) else None
  }

  const NO_DISTANCE: nat := 0xFFFF_FFFF

  function LineOf(key: RowKey): Option<nat> { if key.oldLine.Some? then key.oldLine else key.newLine }

  function Distance(a: nat, b: nat): nat { if a < b then b - a else a - b }

  function LineDistance(a: RowKey, b: RowKey): nat {
    if LineOf(a).Some? && LineOf(b).Some? then Distance(LineOf(a).value, LineOf(b).value) else NO_DISTANCE
  }

  function RowAt(c: Cache, key: RowKey): Option<nat> {
    First(|c.geometry.rows|, (i: nat) => i < |c.geometry.rows| && c.geometry.rows[i].key == key)
  }

  function FirstSelectable(c: Cache): (first: Option<nat>)
    ensures first.Some? ==> SelectableAt(c, first.value) && forall i: nat :: i < first.value ==> !SelectableAt(c, i)
    ensures first.None? ==> forall i: nat :: !SelectableAt(c, i)
  {
    var ok := (i: nat) => SelectableAt(c, i);
    assert forall i: nat :: SelectableAt(c, i) <==> ok(i);
    First(|c.geometry.rows|, ok)
  }

  /** The row with the selected key, if it can still be selected. */
  function SameRow(c: Cache, key: RowKey): Option<nat> {
    if key.kind == NoteKind then RowAt(c, key)
    else if key in c.geometry.rowByKey && SelectableAt(c, c.geometry.rowByKey[key]) then RowAt(c, key) else None
  }

  predicate InFile(c: Cache, fileId: string, i: nat) { SelectableAt(c, i) && c.geometry.rows[i].key.fileId == fileId }

  predicate InHunk(c: Cache, key: RowKey, i: nat) {
    InFile(c, key.fileId, i) && c.geometry.rows[i].key.hunkIndex == key.hunkIndex
  }

  /** How far row i is from the selected one. */
  function Away(c: Cache, key: RowKey, i: nat): nat {
    if i < |c.geometry.rows| then LineDistance(key, c.geometry.rows[i].key) else 0
  }

  /** Row i is the nearest of the rows `ok` accepts to the selected one, and the first of those as near. */
  ghost predicate IsNearest(c: Cache, key: RowKey, ok: iset<nat>, i: nat) {
    i in ok && forall j :: j in ok ==>
      Away(c, key, i) < Away(c, key, j) || (Away(c, key, i) == Away(c, key, j) && i <= j)
  }

  function NearestInHunk(c: Cache, key: RowKey): (best: Option<nat>)
    ensures match best
      case Some(i) => IsNearest(c, key, (iset j: nat | InHunk(c, key, j)), i)
      case None => forall j: nat :: !InHunk(c, key, j)
  {
    var ok, cost := (i: nat) => InHunk(c, key, i), (i: nat) => Away(c, key, i);
    assert forall i: nat :: (InHunk(c, key, i) <==> ok(i)) && cost(i) == Away(c, key, i);
    Cheapest(|c.geometry.rows|, ok, cost)
  }

  function NearestInFile(c: Cache, fileId: string, key: Option<RowKey>): (best: Option<nat>)
    ensures match best
      case Some(i) =>
        if key.Some? then IsNearest(c, key.value, (iset j: nat | InFile(c, fileId, j)), i)
        else InFile(c, fileId, i) && forall j: nat :: j < i ==> !InFile(c, fileId, j)
      case None => forall j: nat :: !InFile(c, fileId, j)
  {
    var ok := (i: nat) => InFile(c, fileId, i);
    assert forall i: nat :: InFile(c, fileId, i) <==> ok(i);
    if key.Some? then
      var cost := (i: nat) => Away(c, key.value, i);
      assert forall i: nat :: cost(i) == Away(c, key.value, i);
      Cheapest(|c.geometry.rows|, ok, cost)
    else First(|c.geometry.rows|, ok)
  }

  /** The row selected after a rebuild: the same one, or the nearest in its hunk, in its file, or the first of all. */
  function Reselected(c: Cache, key: Option<RowKey>, file: Option<string>): Option<nat> {
    var same := if key.Some? then SameRow(c, key.value) else None;
    var inHunk := if key.Some? then NearestInHunk(c, key.value) else None;
    var name := if key.Some? then Some(key.value.fileId) else file;
    var inFile := if name.Some? then NearestInFile(c, name.value, key) else None;
    Or(same, Or(inHunk, Or(inFile, FirstSelectable(c))))
  }

  // ---- The selection ----------------------------------------------------------------------

  datatype Cursor = Cursor(file: Option<string>, hunk: Option<nat>, key: Option<RowKey>)

  const NO_CURSOR := Cursor(None, None, None)

  function CursorAt(bound: RowBounds): Cursor {
    match bound.owner
    case FileOwner(_) => Cursor(Some(bound.key.fileId), bound.key.hunkIndex, Some(bound.key))
    case TrailerOwner => Cursor(None, None, Some(bound.key))
  }

  /** A key that can be selected: of a selectable row or of a note. */
  ghost predicate CanSelect(c: Cache, key: RowKey) {
    exists i: nat :: i < |c.geometry.rows| && c.geometry.rows[i].key == key
      && (SelectableAt(c, i) || key.kind == NoteKind)
  }

  ghost predicate OnRow(c: Cache, cursor: Cursor) {
    exists i: nat :: i < |c.geometry.rows| && cursor == CursorAt(c.geometry.rows[i])
  }

  /** The cursor is on a selectable or note row; there is none only when nothing can be selected. */
  ghost predicate CursorOk(c: Cache, cursor: Cursor) {
    && (cursor.key.None? ==> cursor == NO_CURSOR && forall i: nat :: !SelectableAt(c, i))
    && (cursor.key.Some? ==> CanSelect(c, cursor.key.value) && OnRow(c, cursor))
  }

  function SignedOffset(value: nat, delta: int, amount: nat): nat {
    if delta < 0 then Monus(value, -delta * amount) else value + delta * amount
  }

  function RowOverflow(w: CellWidth, row: Row, digits: nat, o: GeometryOptions): nat {
    match row
    case Line(Stack(_, cell)) => Monus(Cells(w, SpansText(cell.spans)), StackCodeWidth(o, digits))
    case Line(Split(_, left, right)) =>
      var (leftWidth, rightWidth) := SplitCodeWidths(o, digits);
      Max(Monus(Cells(w, SpansText(left.spans)), leftWidth), Monus(Cells(w, SpansText(right.spans)), rightWidth))
    case _ => 0
  }

  function PlanOverflow(w: CellWidth, plan: RowPlan, o: GeometryOptions, n: nat): nat
    requires n <= |plan.rows|
  {
    if n == 0 then 0 else Max(PlanOverflow(w, plan, o, n - 1), RowOverflow(w, plan.rows[n - 1], plan.digits, o))
  }

  function FilesOverflow(w: CellWidth, planned: seq<PlannedFile>, o: GeometryOptions): nat {
    if planned == [] then 0 else
      var plan := planned[|planned| - 1].plan;
      Max(FilesOverflow(w, planned[..|planned| - 1], o), PlanOverflow(w, plan, o, |plan.rows|))
  }

  /** How far lines can be scrolled sideways. */
  function MaxHorizontal(env: Env, inputs: Inputs, c: Cache, v: Viewport): nat {
    if inputs.options.wrapLines then 0 else FilesOverflow(env.w, c.planned, GeometryOptionsOf(inputs, c.shape, v))
  }

  // ---- Rebuilding -------------------------------------------------------------------------

  /** A file the filter lets through. */
  predicate IsVisible(env: Env, inputs: Inputs, fileId: string) {
    FileById(inputs.files, fileId).Some? && env.matches(FileById(inputs.files, fileId).value, inputs.filter)
  }

  /** Whether what is selected stays visible: a note always does. */
  predicate StaysVisible(env: Env, inputs: Inputs, cursor: Cursor) {
    || (cursor.key.Some? && cursor.key.value.kind == NoteKind)
    || (cursor.file.Some? && IsVisible(env, inputs, cursor.file.value))
  }

  /** The file looked for after a rebuild: the selected one, or the first visible one in its place. */
  function FileToFind(c: Cache, stays: bool, cursor: Cursor): Option<string> {
    if stays then cursor.file else if c.visible != [] then Some(c.visible[0].id) else None
  }

  function BodyTopOf(g: ReviewGeometry, fileId: string): nat {
    if fileId in g.fileById && g.fileById[fileId] < |g.sections| then g.sections[g.fileById[fileId]].bodyTop else 0
  }

  function RebuiltScroll(c: Cache, stays: bool, anchor: Option<ViewportAnchor>, scroll: nat,
                         file: Option<string>): nat {
    Min(if stays then (if anchor.Some? then Restore(c.geometry, anchor.value) else scroll)
        else if file.Some? then BodyTopOf(c.geometry, file.value) else 0,
        c.geometry.MaxScrollTop())
  }

  function RebuiltCursor(c: Cache, key: Option<RowKey>, file: Option<string>): Cursor {
    var i := Reselected(c, key, file);
    if i.Some? && i.value < |c.geometry.rows| then CursorAt(c.geometry.rows[i.value]) else NO_CURSOR
  }

  /** Where the reader is: what is selected, the side in focus, and how far the view is scrolled either way. */
  datatype Place = Place(cursor: Cursor, focus: Side, scrollTop: nat, horizontal: nat)

  /** A row of one side pulls the focus there. */
  function FocusAt(c: Cache, index: Option<nat>, focus: Side): Side {
    if index.Some? && index.value < |c.geometry.rows| && RowFor(c, c.geometry.rows[index.value]).Some?
    then Snapped(focus, AvailableSides(RowFor(c, c.geometry.rows[index.value]).value)) else focus
  }

  /** Where a rebuild puts the reader, given the anchor that was captured before it. */
  function RebuiltPlace(env: Env, inputs: Inputs, v: Viewport, anchor: Option<ViewportAnchor>, place: Place): Place {
    var c, stays := CacheOf(env, inputs, v), StaysVisible(env, inputs, place.cursor);
    var file := FileToFind(c, stays, place.cursor);
    Place(RebuiltCursor(c, place.cursor.key, file), FocusAt(c, Reselected(c, place.cursor.key, file), place.focus),
          RebuiltScroll(c, stays, anchor, place.scrollTop, file),
          Min(place.horizontal, MaxHorizontal(env, inputs, c, v)))
  }

  function AnchorOf(cache: Option<Cache>, place: Place): Option<ViewportAnchor> {
    if cache.Some? then Some(Capture(cache.value.geometry, place.scrollTop, place.cursor.file, place.cursor.hunk))
      else None
  }

  /**
   * Where the reader is once the geometry is up to date: in the same place if it was, and else where a rebuild puts it.
   */
  function Refreshed(env: Env, inputs: Inputs, cache: Option<Cache>, clean: bool, v: Viewport, place: Place): Place {
    if clean then place else RebuiltPlace(env, inputs, v, AnchorOf(cache, place), place)
  }

  // ---- Moving the cursor ------------------------------------------------------------------

  /** The selectable rows above row n, from the top. */
  function SelectableRows(c: Cache, n: nat): seq<nat> {
    if n == 0 then [] else SelectableRows(c, n - 1) + (if SelectableAt(c, n - 1) then [n - 1] else [])
  }

  function NoteIndices(c: Cache, n: nat): seq<nat>
    requires n <= |c.geometry.rows|
  {
    if n == 0 then [] else NoteIndices(c, n - 1) + (if c.geometry.rows[n - 1].key.kind == NoteKind then [n - 1] else [])
  }

  /** Position of the row with the selected key in a list of row indices, or `otherwise`. */
  function PositionOf(c: Cache, list: seq<nat>, key: Option<RowKey>, otherwise: nat): nat {
    var found := First(|list|, (i: nat) => i < |list| && list[i] < |c.geometry.rows|
      && Some(c.geometry.rows[list[i]].key) == key);
    if found.Some? then found.value else otherwise
  }

  function WrappingIndex(current: nat, length: nat, delta: int): (i: nat)
    requires length > 0
    ensures i < length
  {
    (Min(current, length - 1) + delta) % length
  }

  /** The selectable row whose middle is nearest to the middle of the viewport. */
  function FromViewport(c: Cache, scrollTop: nat, height: nat): (best: Option<nat>)
    ensures best.Some? ==> SelectableAt(c, best.value)
    ensures best.None? ==> forall i: nat :: !SelectableAt(c, i)
  {
    var probe := Min(scrollTop + height / 2, Monus(c.geometry.totalHeight, 1));
    var ok := (i: nat) => SelectableAt(c, i);
    assert forall i: nat :: SelectableAt(c, i) <==> ok(i);
    Cheapest(|c.geometry.rows|, ok,
      (i: nat) => if i < |c.geometry.rows| then Distance(c.geometry.rows[i].top + c.geometry.rows[i].height / 2, probe)
        else 0)
  }

  function ViewportCursor(c: Cache, scrollTop: nat, height: nat): Cursor {
    var i := FromViewport(c, scrollTop, height);
    if i.Some? then CursorAt(c.geometry.rows[i.value]) else NO_CURSOR
  }

  /** The nearest scroll position that shows a row. */
  function Revealed(bound: RowBounds, scrollTop: nat, height: nat): nat {
    if bound.top < scrollTop then bound.top
    else if bound.Bottom() > scrollTop + Max(height, 1) then Monus(bound.Bottom(), Max(height, 1))
    else scrollTop
  }

  function TargetRow(c: Cache, fileId: string, hunk: nat): (first: Option<nat>)
    ensures first.Some? ==> OfHunk(c, first.value, fileId, hunk)
    ensures first.None? ==> forall i: nat :: !OfHunk(c, i, fileId, hunk)
  {
    var ok := (i: nat) => OfHunk(c, i, fileId, hunk);
    assert forall i: nat :: OfHunk(c, i, fileId, hunk) <==> ok(i);
    First(|c.geometry.rows|, ok)
  }

  predicate OfHunk(c: Cache, i: nat, fileId: string, hunk: nat) {
    SelectableAt(c, i) && c.geometry.rows[i].key.fileId == fileId && c.geometry.rows[i].key.hunkIndex == Some(hunk)
  }

  /**
   * Where asking for a hunk of a file leads: its first row, or failing that the row a rebuild selects. The hunk is
   * looked for in the file the rebuild settled on, which is another one when the filter hides the file asked for.
   */
  function Landing(env: Env, inputs: Inputs, c: Cache, fileId: string, hunk: nat): Cursor {
    var asked := Cursor(Some(fileId), Some(hunk), None);
    var found := RebuiltCursor(c, None, FileToFind(c, StaysVisible(env, inputs, asked), asked));
    var target := TargetRow(c, if found.file.Some? then found.file.value else "", hunk);
    if target.Some? then CursorAt(c.geometry.rows[target.value]) else found
  }

  // ---- Toggling context -------------------------------------------------------------------

  function ToggleTarget(gaps: seq<CollapsedGap>, requested: Option<GapKey>, selected: nat): Option<GapKey> {
    if requested.Some? && exists i :: 0 <= i < |gaps| && gaps[i].key == requested.value then requested
    else SelectGapForToggle(gaps, selected)
  }

  datatype Toggled = Toggled(contexts: map<string, FileContext>, result: Result<bool, SourceFailure>)

  function ContextOrNew(contexts: map<string, FileContext>, fileId: string): FileContext {
    if fileId in contexts then contexts[fileId] else FileContext({}, None)
  }

  function FailureOf(context: FileContext): Option<SourceFailure> {
    if context.source.Some? && context.source.value.Err? then Some(context.source.value.error) else None
  }

  /** Loads a file's source once; `loaded` is what reading it gives. */
  function WithSource(file: DiffFile, context: FileContext, loaded: Result<string, SourceFailure>): FileContext {
    if context.source.Some? then context
    else context.(source := Some(match loaded
      case Ok(text) => Ok(LoadedSource(if file.deleted then Old else New, text))
      case Err(failure) => Err(failure)))
  }

  function ToggleFile(file: DiffFile, contexts: map<string, FileContext>, requested: Option<GapKey>, selected: nat,
                      loaded: Result<string, SourceFailure>): Toggled
  {
    var context := ContextOrNew(contexts, file.id);
    var target := ToggleTarget(GapsOf(file, Some(context)), requested, selected);
    if target.Some? && target.value in context.expanded then
      Toggled(contexts[file.id := context.(expanded := context.expanded - {target.value})], Ok(false))
    else
      var ready := WithSource(file, context, loaded);
      var chosen := if target.Some? then target else SelectGapForToggle(GapsOf(file, Some(ready)), selected);
      var failure := FailureOf(ready);
      if chosen.None? then Toggled(contexts[file.id := ready], if failure.Some? then Err(failure.value) else Ok(false))
      else Toggled(contexts[file.id := ready.(expanded := ready.expanded + {chosen.value})],
                   if failure.Some? then Err(failure.value) else Ok(true))
  }

  /** What toggling a requested gap, or the one nearest the cursor, does to the expanded context. */
  function ToggleOf(inputs: Inputs, cursor: Cursor, requested: Option<GapKey>,
                    loaded: Result<string, SourceFailure>): Toggled {
    var id := if requested.Some? then Some(requested.value.fileId) else cursor.file;
    if id.None? || FileById(inputs.files, id.value).None? then Toggled(inputs.contexts, Err(Unavailable))
    else ToggleFile(FileById(inputs.files, id.value).value, inputs.contexts, requested,
      if requested.Some? then requested.value.hunkIndex else if cursor.hunk.Some? then cursor.hunk.value else 0, loaded)
  }

  /** Gaps are only expanded once their source has been read. */
  ghost predicate ContextsOk(contexts: map<string, FileContext>) {
    forall id :: id in contexts && contexts[id].source.None? ==> contexts[id].expanded == {}
  }

  ghost predicate DistinctFiles(files: seq<DiffFile>) {
    forall i, j :: 0 <= i < j < |files| ==> files[i].id != files[j].id
  }

  // ---- Replacing files --------------------------------------------------------------------

  function NonTests(env: Env, files: seq<DiffFile>): seq<DiffFile> {
    if files == [] then [] else
      NonTests(env, files[..|files| - 1]) + (if env.isTest(files[|files| - 1].path) then [] else [files[|files| - 1]])
  }

  function Tests(env: Env, files: seq<DiffFile>): seq<DiffFile> {
    if files == [] then [] else
      Tests(env, files[..|files| - 1]) + (if env.isTest(files[|files| - 1].path) then [files[|files| - 1]] else [])
  }

  /** Test files after the others, each group in its own order. */
  function Arranged(env: Env, testsLast: bool, files: seq<DiffFile>): seq<DiffFile> {
    if testsLast then NonTests(env, files) + Tests(env, files) else files
  }

  function KeptNotes(notes: seq<ReviewNote>, files: seq<DiffFile>): seq<ReviewNote> {
    if notes == [] then [] else
      var last := notes[|notes| - 1];
      KeptNotes(notes[..|notes| - 1], files) + (if FileById(files, last.target.fileId).Some? then [last] else [])
  }

  function KeptIds(ids: set<string>, files: seq<DiffFile>): set<string> {
    set id | id in ids && FileById(files, id).Some?
  }

  function Replaced(env: Env, inputs: Inputs, files: seq<DiffFile>): Inputs {
    var arranged := Arranged(env, inputs.options.testsLast, files);
    inputs.(files := arranged, contexts := map[], notes := KeptNotes(inputs.notes, arranged),
            expandedTests := KeptIds(inputs.expandedTests, arranged), viewed := KeptIds(inputs.viewed, arranged))
  }

  // ---- Lemmas -----------------------------------------------------------------------------

  lemma {:induction false} BodyHasRows(w: CellWidth, plan: RowPlan, o: GeometryOptions, owner: RowOwner, top: nat,
                                       n: nat)
    requires n <= |plan.rows|
    ensures forall i :: 0 <= i < n ==>
      var bound := BodyRows(w, plan, o, owner, top, n)[i];
      bound.owner == owner && bound.rowIndex == i && bound.key == plan.rows[i].Key()
  {
    hide BodyHeight, RowHeight;
    if n > 0 { BodyHasRows(w, plan, o, owner, top, n - 1); }
  }

  /** A bound whose row exists and has its key. */
  predicate Owned(c: Cache, bound: RowBounds) { RowFor(c, bound).Some? && RowFor(c, bound).value.Key() == bound.key }

  lemma {:induction false} FilesHaveRows(w: CellWidth, c: Cache, o: GeometryOptions, n: nat)
    requires n <= |c.planned|
    ensures forall i :: 0 <= i < |FileRows(w, c.planned, o, n)| ==> Owned(c, FileRows(w, c.planned, o, n)[i])
  {
    hide BodyHeight, RowHeight, BodyRows, SectionAt, FilesBottom;
    if n > 0 {
      FilesHaveRows(w, c, o, n - 1);
      var file := c.planned[n - 1];
      var section := SectionAt(w, file, o, n - 1, FilesBottom(w, c.planned, o, n - 1));
      BodyHasRows(w, file.plan, o, FileOwner(n - 1), section.bodyTop, |file.plan.rows|);
    }
  }

  /** Every row of a cache's geometry is a row of its plans. */
  lemma BoundsHaveRows(env: Env, inputs: Inputs, v: Viewport)
    ensures var c := CacheOf(env, inputs, v);
      forall i :: 0 <= i < |c.geometry.rows| ==> Owned(c, c.geometry.rows[i])
  {
    hide BodyHeight, RowHeight, BodyRows, FileRows, FilesBottom, PlannedAll, TrailerOf, VisibleFiles, ShapeOf, RowFor;
    var c, o := CacheOf(env, inputs, v), GeometryOptionsOf(inputs, ShapeOf(inputs, v), v);
    FilesHaveRows(env.w, c, o, |c.planned|);
    TrailerHasRows(env.w, c, o, FilesBottom(env.w, c.planned, o, |c.planned|));
  }

  lemma TrailerHasRows(w: CellWidth, c: Cache, o: GeometryOptions, top: nat)
    ensures forall i :: 0 <= i < |TrailerRows(w, c.trailer, o, top)| ==> Owned(c, TrailerRows(w, c.trailer, o, top)[i])
  {
    hide BodyHeight, RowHeight, BodyRows;
    if HasTrailer(c.trailer) {
      BodyHasRows(w, c.trailer.value, o, TrailerOwner, top + 2, |c.trailer.value.rows|);
    }
  }

  lemma {:induction false} IndexNames(rows: seq<RowBounds>, key: RowKey)
    requires key in RowIndex(rows)
    ensures RowIndex(rows)[key] < |rows| && rows[RowIndex(rows)[key]].key == key
  {
    if rows != [] && rows[|rows| - 1].key != key { IndexNames(rows[..|rows| - 1], key); }
  }

  lemma SameRowCanBeSelected(c: Cache, key: RowKey)
    requires c.geometry.rowByKey == RowIndex(c.geometry.rows) && SameRow(c, key).Some?
    ensures SameRow(c, key).value < |c.geometry.rows| && c.geometry.rows[SameRow(c, key).value].key == key
      && CanSelect(c, key)
  {
    hide RowIndex, SelectableAt;
    if key.kind != NoteKind {
      IndexNames(c.geometry.rows, key);
      assert SelectableAt(c, c.geometry.rowByKey[key]);
    }
  }

  lemma SelectableCanBeSelected(c: Cache, i: nat)
    requires SelectableAt(c, i)
    ensures i < |c.geometry.rows| && CanSelect(c, c.geometry.rows[i].key)
  {
    hide RowFor;
  }

  /** Whatever is reselected can be selected, and nothing is reselected only if nothing can be. */
  lemma ReselectedCanBeSelected(c: Cache, key: Option<RowKey>, file: Option<string>)
    requires c.geometry.rowByKey == RowIndex(c.geometry.rows)
    ensures var i := Reselected(c, key, file);
      && (i.Some? ==> i.value < |c.geometry.rows| && CanSelect(c, c.geometry.rows[i.value].key))
      && (i.None? ==> forall j: nat :: !SelectableAt(c, j))
  {
    hide RowIndex, SameRow, SelectableAt, CanSelect;
    var i := Reselected(c, key, file);
    if key.Some? && SameRow(c, key.value).Some? {
      SameRowCanBeSelected(c, key.value);
    } else if i.Some? {
      SelectableCanBeSelected(c, i.value);
    }
  }
}
