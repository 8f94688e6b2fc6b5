/** What the movements of a review mean to its reader: first and last, next and previous, nearest, a screen on. */
module MovementProofs {
  import opened Text
  import opened DiffModel
  import opened Context
  import opened Rows
  import opened Plan
  import opened Geometry
  import opened Anchor
  import opened ControllerModel
  import opened Movement

  // ---- Steps ------------------------------------------------------------------------------

  /** Around the ends: one on is the next position, or the first after the last; one back undoes it. */
  lemma WrappingSteps(current: nat, length: nat)
    requires current < length
    ensures WrappingIndex(current, length, 1) == if current + 1 < length then current + 1 else 0
    ensures WrappingIndex(current, length, -1) == if current > 0 then current - 1 else length - 1
    ensures WrappingIndex(WrappingIndex(current, length, 1), length, -1) == current
    ensures WrappingIndex(WrappingIndex(current, length, -1), length, 1) == current
  {
    StepIs(current, length, 1);
    StepIs(current, length, -1);
    StepIs(WrappingIndex(current, length, 1), length, -1);
    StepIs(WrappingIndex(current, length, -1), length, 1);
    hide WrappingIndex;
  }

  lemma StepIs(current: nat, length: nat, delta: int)
    requires current < length && -1 <= delta <= 1
    ensures WrappingIndex(current, length, delta) ==
      if current + delta == length then 0 else if current + delta < 0 then length - 1 else current + delta
  {
    var sum := current + delta;
    if sum == length { Remainder(sum, length, 1, 0); }
    else if sum < 0 { Remainder(sum, length, -1, length - 1); }
    else { Remainder(sum, length, 0, sum); }
  }

  lemma Remainder(a: int, length: nat, quotient: int, rest: nat)
    requires rest < length && a == quotient * length + rest && -1 <= quotient <= 1
    ensures a % length == rest
  {
    var q, r := a / length, a % length;
    assert a == q * length + r && 0 <= r < length;
    var d := quotient - q;
    assert d * length == r - rest;
    Multiples(d, length);
  }

  lemma Multiples(d: int, length: nat)
    ensures d >= 1 ==> d * length >= length
    ensures d <= -1 ==> d * length + length <= 0
  {
    if d >= 1 { assert d * length == length + (d - 1) * length; }
    if d <= -1 { assert d * length + length == (d + 1) * length; }
  }

  /** Up and down by an amount, never above zero. */
  lemma SignedSteps(value: nat, amount: nat)
    ensures SignedOffset(value, 1, amount) == value + amount
    ensures SignedOffset(value, -1, amount) == if value < amount then 0 else value - amount
    ensures SignedOffset(SignedOffset(value, 1, amount), -1, amount) == value
  {
  }

  // ---- Rows -------------------------------------------------------------------------------

  ghost predicate IsFirst(c: Cache, i: nat) { SelectableAt(c, i) && forall j: nat :: j < i ==> !SelectableAt(c, j) }

  ghost predicate IsLast(c: Cache, i: nat) { SelectableAt(c, i) && forall j: nat :: i < j ==> !SelectableAt(c, j) }

  /** The next selectable row below another. */
  ghost predicate IsNext(c: Cache, i: nat, j: nat) {
    i < j && SelectableAt(c, j) && forall k: nat :: i < k < j ==> !SelectableAt(c, k)
  }

  ghost predicate NothingSelectable(c: Cache) { forall i: nat :: !SelectableAt(c, i) }

  ghost predicate On(c: Cache, i: nat, place: Place) {
    i < |c.geometry.rows| && place.cursor == CursorAt(c.geometry.rows[i])
  }

  ghost predicate Ascending(rows: seq<nat>) { forall a, b :: 0 <= a < b < |rows| ==> rows[a] < rows[b] }

  lemma {:induction false} SelectableInOrder(c: Cache, n: nat)
    ensures var rows := SelectableRows(c, n);
      && Ascending(rows) && (forall i :: 0 <= i < |rows| ==> rows[i] < n && SelectableAt(c, rows[i]))
      && (forall i: nat :: i < n && SelectableAt(c, i) ==> i in rows)
  {
    hide SelectableAt;
    if n > 0 { SelectableInOrder(c, n - 1); }
  }

  lemma SelectableIsRow(c: Cache)
    ensures forall i: nat :: SelectableAt(c, i) ==> i < |c.geometry.rows|
  {
    hide RowFor;
  }

  /** Top goes to the first row that can be selected and to the start of the document. */
  lemma TopIsFirst(c: Cache, place: Place)
    ensures var to := AtTop(c, place);
      && (NothingSelectable(c) ==> to == place)
      && (!NothingSelectable(c) ==> to.scrollTop == 0 && exists i: nat :: IsFirst(c, i) && On(c, i, to))
      && to.horizontal == place.horizontal
  {
    SelectableIsRow(c);
    hide RowFor, CursorAt, FocusAt, SelectableAt;
    var first := FirstSelectable(c);
    if first.Some? { assert IsFirst(c, first.value) && On(c, first.value, AtTop(c, place)); }
  }

  /** Bottom goes to the last row that can be selected and to the end of the document. */
  lemma BottomIsLast(c: Cache, place: Place)
    ensures var to := AtBottom(c, place);
      && (NothingSelectable(c) ==> to == place)
      && (!NothingSelectable(c) ==>
            to.scrollTop == c.geometry.MaxScrollTop() && exists i: nat :: IsLast(c, i) && On(c, i, to))
      && to.horizontal == place.horizontal
  {
    SelectableIsRow(c);
    hide RowFor, CursorAt, FocusAt, SelectableAt, SelectableRows;
    var rows := SelectableRows(c, |c.geometry.rows|);
    SelectableInOrder(c, |c.geometry.rows|);
    if rows != [] {
      var i := rows[|rows| - 1];
      forall j: nat | SelectableAt(c, j) ensures j <= i {
        var k :| 0 <= k < |rows| && rows[k] == j;
      }
      assert IsLast(c, i) && On(c, i, AtBottom(c, place));
    }
  }

  /** The cursor is on row i, and no row above it that can be selected has the same key. */
  ghost predicate Selected(c: Cache, i: nat, place: Place) {
    && SelectableAt(c, i) && place.cursor.key == Some(c.geometry.rows[i].key)
    && forall j: nat :: j < i && SelectableAt(c, j) ==> c.geometry.rows[j].key != c.geometry.rows[i].key
  }

  lemma PositionIs(c: Cache, rows: seq<nat>, p: nat, place: Place)
    requires p < |rows| && Ascending(rows) && forall i :: 0 <= i < |rows| ==> SelectableAt(c, rows[i])
    requires Selected(c, rows[p], place)
    ensures PositionOf(c, rows, place.cursor.key, 0) == p
  {
    hide RowFor;
    var ok := (i: nat) => i < |rows| && rows[i] < |c.geometry.rows|
      && Some(c.geometry.rows[rows[i]].key) == place.cursor.key;
    assert ok(p);
    var found := First(|rows|, ok);
    assert found.Some? && ok(found.value);
    assert forall q :: 0 <= q < p ==> rows[q] < rows[p];
    assert forall q :: 0 <= q < p ==> !ok(q);
  }

  lemma RowIsListed(c: Cache, i: nat, place: Place) returns (rows: seq<nat>, p: nat)
    requires Selected(c, i, place)
    ensures rows == SelectableRows(c, |c.geometry.rows|) && p < |rows| && rows[p] == i && Ascending(rows)
    ensures PositionOf(c, rows, place.cursor.key, 0) == p
    ensures forall j :: 0 <= j < |rows| ==> rows[j] < |c.geometry.rows| && SelectableAt(c, rows[j])
    ensures forall j: nat :: SelectableAt(c, j) ==> j in rows
  {
    SelectableIsRow(c);
    hide SelectableAt, SelectableRows, PositionOf;
    rows := SelectableRows(c, |c.geometry.rows|);
    SelectableInOrder(c, |c.geometry.rows|);
    p :| 0 <= p < |rows| && rows[p] == i;
    PositionIs(c, rows, p, place);
  }

  /** One down is the next row that can be selected; on the last the cursor stays. */
  lemma CursorStepsDown(c: Cache, v: Viewport, i: nat, place: Place)
    requires Selected(c, i, place)
    ensures forall j: nat :: IsNext(c, i, j) ==> On(c, j, CursorMoved(c, v, 1, place))
    ensures IsLast(c, i) ==> On(c, i, CursorMoved(c, v, 1, place))
  {
    var rows, p := RowIsListed(c, i, place);
    hide SelectableAt, SelectableRows, PositionOf, CursorMoved, On;
    SignedSteps(p, 1);
    Lands(c, v, rows, p, 1, place);
    forall j: nat | IsNext(c, i, j) ensures p + 1 < |rows| && rows[p + 1] == j {
      var q :| 0 <= q < |rows| && rows[q] == j;
      assert p < q;
    }
    if p + 1 < |rows| { assert SelectableAt(c, rows[p + 1]); }
  }

  /** One up is the row before; on the first the cursor stays. */
  lemma CursorStepsUp(c: Cache, v: Viewport, i: nat, place: Place)
    requires Selected(c, i, place)
    ensures forall j: nat :: SelectableAt(c, j) && IsNext(c, j, i) ==> On(c, j, CursorMoved(c, v, -1, place))
    ensures IsFirst(c, i) ==> On(c, i, CursorMoved(c, v, -1, place))
  {
    var rows, p := RowIsListed(c, i, place);
    hide SelectableAt, SelectableRows, PositionOf, CursorMoved, On;
    SignedSteps(p, 1);
    Lands(c, v, rows, p, -1, place);
    forall j: nat | SelectableAt(c, j) && IsNext(c, j, i) ensures p > 0 && rows[p - 1] == j {
      var q :| 0 <= q < |rows| && rows[q] == j;
      assert q < p;
    }
    if p > 0 { assert SelectableAt(c, rows[p - 1]); }
  }

  lemma Lands(c: Cache, v: Viewport, rows: seq<nat>, p: nat, delta: int, place: Place)
    requires rows == SelectableRows(c, |c.geometry.rows|) && p < |rows|
    requires forall i :: 0 <= i < |rows| ==> rows[i] < |c.geometry.rows|
    requires PositionOf(c, rows, place.cursor.key, 0) == p
    ensures On(c, rows[Min(SignedOffset(p, delta, 1), |rows| - 1)], CursorMoved(c, v, delta, place))
  {
    hide CursorAt, FocusAt, SelectableRows, RowByKey, PositionOf, Revealed;
  }

  // ---- The view ---------------------------------------------------------------------------

  /** Scrolling selects the row whose middle is nearest to the middle of the view, the upper one of two. */
  lemma NearestIsSelected(c: Cache, v: Viewport, place: Place)
    ensures var to := FromView(c, v, place);
      var probe := Min(place.scrollTop + v.height / 2, Monus(c.geometry.totalHeight, 1));
      && to.scrollTop == place.scrollTop && to.horizontal == place.horizontal
      && (NothingSelectable(c) ==> to.cursor == NO_CURSOR)
      && (!NothingSelectable(c) ==> exists i: nat :: SelectableAt(c, i) && On(c, i, to) && NearestTo(c, i, probe))
  {
    SelectableIsRow(c);
    hide RowFor, CursorAt, FocusAt, SelectableAt;
    var probe := Min(place.scrollTop + v.height / 2, Monus(c.geometry.totalHeight, 1));
    var found := FromViewport(c, place.scrollTop, v.height);
    if found.Some? {
      ViewportIsNearest(c, place.scrollTop, v.height);
      assert On(c, found.value, FromView(c, v, place));
    }
  }

  function Middle(bound: RowBounds): nat { bound.top + bound.height / 2 }

  /** No row that can be selected is nearer to a line, and none above is as near. */
  ghost predicate NearestTo(c: Cache, i: nat, line: nat) {
    i < |c.geometry.rows| && forall j: nat :: j < |c.geometry.rows| && SelectableAt(c, j) ==>
      var near, other := Apart(Middle(c.geometry.rows[i]), line), Apart(Middle(c.geometry.rows[j]), line);
      near <= other && (near == other ==> i <= j)
  }

  function Apart(a: int, b: int): int { if a <= b then b - a else a - b }

  lemma ViewportIsNearest(c: Cache, scrollTop: nat, height: nat)
    requires FromViewport(c, scrollTop, height).Some?
    ensures NearestTo(c, FromViewport(c, scrollTop, height).value,
                      Min(scrollTop + height / 2, Monus(c.geometry.totalHeight, 1)))
  {
    SelectableIsRow(c);
    hide SelectableAt;
    var probe := Min(scrollTop + height / 2, Monus(c.geometry.totalHeight, 1));
    var ok := (i: nat) => SelectableAt(c, i);
    var cost := (i: nat) => if i < |c.geometry.rows|
      then Distance(c.geometry.rows[i].top + c.geometry.rows[i].height / 2, probe) else 0;
    var best := FromViewport(c, scrollTop, height).value;
    assert Cheapest(|c.geometry.rows|, ok, cost) == Some(best);
    assert best < |c.geometry.rows|;
    forall j: nat | j < |c.geometry.rows| && SelectableAt(c, j)
      ensures cost(best) <= cost(j) && (cost(best) == cost(j) ==> best <= j)
    {
      assert ok(j);
    }
  }

  /** A step is a line, a page a screen and half a page half of one; the view stops at either end of the document. */
  lemma ScrollsByUnit(c: Cache, v: Viewport, place: Place)
    requires v.height >= 2
    ensures Scrolled(c, v, 1, Step, place).scrollTop == Min(place.scrollTop + 1, c.geometry.MaxScrollTop())
    ensures Scrolled(c, v, 1, Page, place).scrollTop == Min(place.scrollTop + v.height, c.geometry.MaxScrollTop())
    ensures Scrolled(c, v, 1, HalfPage, place).scrollTop
      == Min(place.scrollTop + v.height / 2, c.geometry.MaxScrollTop())
    ensures place.scrollTop <= c.geometry.MaxScrollTop() ==> forall unit ::
      Scrolled(c, v, -1, unit, place).scrollTop == Monus(place.scrollTop, Amount(unit, v.height))
  {
    hide RowFor, CursorAt, FocusAt, SelectableAt, FromViewport;
    forall unit { SignedSteps(place.scrollTop, Amount(unit, v.height)); }
  }

  // ---- Sides ------------------------------------------------------------------------------

  /** A side is available where the row shows a cell of it. */
  lemma SidesAreShown(row: LineRow)
    ensures AvailableSides(Line(row)) == (RowCells(row, Old) != [], RowCells(row, New) != [])
  {
  }

  /** A side asked for gets the focus unless the selected row shows only the other. */
  lemma FocusIsGiven(c: Cache, side: Side, place: Place)
    ensures var to := Focused(c, side, place);
      && to == place.(focus := to.focus)
      && (to.focus != side <==>
            var row := SelectedRow(c, place.cursor);
            row.Some? && row.value.Line?
              && RowCells(row.value.row, side) == [] && RowCells(row.value.row, to.focus) != [])
  {
    hide SelectedRow;
    var row := SelectedRow(c, place.cursor);
    if row.Some? && row.value.Line? { SidesAreShown(row.value.row); }
  }

  // ---- Hunks ------------------------------------------------------------------------------

  function HunksBefore(visible: seq<DiffFile>, n: nat): nat
    requires n <= |visible|
  {
    if n == 0 then 0 else HunksBefore(visible, n - 1) + |visible[n - 1].hunks|
  }

  /** The hunks that are moved over are those of the visible files, file by file. */
  lemma {:induction false} HunksInOrder(visible: seq<DiffFile>, i: nat, k: nat)
    requires i < |visible| && k < |visible[i].hunks|
    ensures |HunkTargets(visible)| == HunksBefore(visible, |visible|)
    ensures HunksBefore(visible, i) + k < |HunkTargets(visible)|
    ensures HunkTargets(visible)[HunksBefore(visible, i) + k] == (visible[i].id, k)
  {
    var front := visible[..|visible| - 1];
    HunksCount(visible);
    HunksCount(front);
    SameBefore(visible, |front|);
    if i < |front| {
      SameBefore(visible, i);
      HunksInOrder(front, i, k);
    }
  }

  lemma {:induction false} HunksCount(visible: seq<DiffFile>)
    ensures |HunkTargets(visible)| == HunksBefore(visible, |visible|)
  {
    if visible != [] {
      HunksCount(visible[..|visible| - 1]);
      SameBefore(visible, |visible| - 1);
    }
  }

  lemma {:induction false} SameBefore(visible: seq<DiffFile>, n: nat)
    requires n < |visible|
    ensures HunksBefore(visible[..|visible| - 1], n) == HunksBefore(visible, n)
  {
    if n > 0 { SameBefore(visible, n - 1); }
  }

  // ---- Notes ------------------------------------------------------------------------------

  ghost predicate NoteRow(c: Cache, i: nat) { i < |c.geometry.rows| && c.geometry.rows[i].key.kind == NoteKind }

  lemma {:induction false} NotesInOrder(c: Cache, n: nat)
    requires n <= |c.geometry.rows|
    ensures var notes := NoteIndices(c, n);
      && Ascending(notes) && (forall i :: 0 <= i < |notes| ==> notes[i] < n && NoteRow(c, notes[i]))
      && (forall i: nat :: i < n && NoteRow(c, i) ==> i in notes)
  {
    if n > 0 { NotesInOrder(c, n - 1); }
  }

  lemma NoteLands(c: Cache, v: Viewport, delta: int, place: Place)
    requires NoteIndices(c, |c.geometry.rows|) != []
    ensures var notes := NoteIndices(c, |c.geometry.rows|);
      var from := PositionOf(c, notes, place.cursor.key, if delta < 0 then 0 else |notes| - 1);
      On(c, notes[WrappingIndex(from, |notes|, delta)], NoteMoved(c, v, delta, place))
  {
    NotesInOrder(c, |c.geometry.rows|);
    hide NoteIndices, CursorAt, FocusAt, RowByKey, Revealed, WrappingIndex, PositionOf;
  }

  /** With the cursor on no note, one on is the first note of the document, and one back the last. */
  lemma NotesStartAtTheEnds(c: Cache, v: Viewport, place: Place, i: nat)
    requires NoteRow(c, i) && forall j: nat :: NoteRow(c, j) ==> place.cursor.key != Some(c.geometry.rows[j].key)
    ensures (forall j: nat :: NoteRow(c, j) ==> i <= j) ==> On(c, i, NoteMoved(c, v, 1, place))
    ensures (forall j: nat :: NoteRow(c, j) ==> j <= i) ==> On(c, i, NoteMoved(c, v, -1, place))
  {
    var notes := NoteIndices(c, |c.geometry.rows|);
    NotesInOrder(c, |c.geometry.rows|);
    hide NoteIndices, NoteMoved, On, WrappingIndex, PositionOf;
    var n := |notes|;
    NoteLands(c, v, 1, place);
    NoteLands(c, v, -1, place);
    NotListed(c, notes, place.cursor.key, n - 1);
    NotListed(c, notes, place.cursor.key, 0);
    WrappingSteps(n - 1, n);
    WrappingSteps(0, n);
    EndsAreEnds(c, notes, i);
  }

  lemma EndsAreEnds(c: Cache, notes: seq<nat>, i: nat)
    requires Ascending(notes) && i in notes && forall k :: 0 <= k < |notes| ==> NoteRow(c, notes[k])
    ensures (forall j: nat :: NoteRow(c, j) ==> i <= j) ==> notes[0] == i
    ensures (forall j: nat :: NoteRow(c, j) ==> j <= i) ==> notes[|notes| - 1] == i
  {
    hide NoteRow;
    var p :| 0 <= p < |notes| && notes[p] == i;
    assert NoteRow(c, notes[0]) && NoteRow(c, notes[|notes| - 1]);
    assert p > 0 ==> notes[0] < notes[p];
    assert p < |notes| - 1 ==> notes[p] < notes[|notes| - 1];
  }

  lemma NotListed(c: Cache, list: seq<nat>, key: Option<RowKey>, otherwise: nat)
    requires forall i :: 0 <= i < |list| && list[i] < |c.geometry.rows| ==> Some(c.geometry.rows[list[i]].key) != key
    ensures PositionOf(c, list, key, otherwise) == otherwise
  {
    var ok := (i: nat) => i < |list| && list[i] < |c.geometry.rows| && Some(c.geometry.rows[list[i]].key) == key;
    assert forall q: nat :: !ok(q);
  }

  /** From a note whose key no note above it has: one on is the next, the first after the last; one back the reverse. */
  lemma NoteSteps(c: Cache, v: Viewport, p: nat, place: Place)
    requires var notes := NoteIndices(c, |c.geometry.rows|);
      p < |notes| && notes[p] < |c.geometry.rows| && place.cursor.key == Some(c.geometry.rows[notes[p]].key)
      && forall q :: 0 <= q < p && notes[q] < |c.geometry.rows| ==>
           c.geometry.rows[notes[q]].key != c.geometry.rows[notes[p]].key
    ensures var notes := NoteIndices(c, |c.geometry.rows|);
      && On(c, notes[if p + 1 < |notes| then p + 1 else 0], NoteMoved(c, v, 1, place))
      && On(c, notes[if p > 0 then p - 1 else |notes| - 1], NoteMoved(c, v, -1, place))
  {
    var notes := NoteIndices(c, |c.geometry.rows|);
    NoteLands(c, v, 1, place);
    NoteLands(c, v, -1, place);
    hide NoteIndices, NoteMoved, On, WrappingIndex, PositionOf;
    Listed(c, notes, p, place.cursor.key, |notes| - 1);
    Listed(c, notes, p, place.cursor.key, 0);
    WrappingSteps(p, |notes|);
  }

  lemma Listed(c: Cache, list: seq<nat>, p: nat, key: Option<RowKey>, otherwise: nat)
    requires p < |list| && list[p] < |c.geometry.rows| && Some(c.geometry.rows[list[p]].key) == key
    requires forall q :: 0 <= q < p && list[q] < |c.geometry.rows| ==> Some(c.geometry.rows[list[q]].key) != key
    ensures PositionOf(c, list, key, otherwise) == p
  {
    var ok := (i: nat) => i < |list| && list[i] < |c.geometry.rows| && Some(c.geometry.rows[list[i]].key) == key;
    assert ok(p);
    var found := First(|list|, ok);
    assert found.Some? && ok(found.value);
    assert forall q :: 0 <= q < p ==> !ok(q);
  }

  // ---- Settings ---------------------------------------------------------------------------

  /** The switches of a review: line numbers, wrapping, hunk headers and agents' notes. */
  function Switches(i: Inputs): seq<bool> {
    [i.options.lineNumbers, i.options.wrapLines, i.options.hunkHeaders, i.options.agentNotes]
  }

  /** The switch a toggle is of. */
  function SwitchOf(action: Action): Option<nat> {
    match action
    case ToggleLineNumbers => Some(0)
    case ToggleWrap => Some(1)
    case ToggleHunkHeaders => Some(2)
    case ToggleAgentNotes => Some(3)
    case _ => None
  }

  /** A toggle turns its own switch and no other, and made twice it is undone. */
  lemma TogglesUndo(env: Env, i: Inputs, v: Viewport, action: Action)
    requires SwitchOf(action).Some? && !(i.options.pagerMode && ApplicationOnly(action))
    ensures var once := NextInputs(env, i, v, action);
      && (forall k :: 0 <= k < 4 ==> (Switches(once)[k] != Switches(i)[k] <==> SwitchOf(action) == Some(k)))
      && NextInputs(env, once, v, action) == i
  {
  }

  /** Hiding or showing the sidebar turns what is on screen around. */
  lemma SidebarTurns(env: Env, i: Inputs, v: Viewport)
    ensures ShapeOf(NextInputs(env, i, v, ToggleSidebar), v).sidebar == !ShapeOf(i, v).sidebar
  {
  }
}
