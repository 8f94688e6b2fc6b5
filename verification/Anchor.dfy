/** Keeping the reader's place: a viewport anchor captured in one geometry and restored in another. */
module Anchor {
  import opened Text
  import opened DiffModel
  import opened Rows
  import opened Geometry
  import opened GeometryProofs

  datatype ViewportAnchor = ViewportAnchor(rowKey: Option<RowKey>, intraRow: nat, fileId: Option<string>,
                                           hunkIndex: Option<nat>, absoluteOffset: nat)

  function OwnerFile(g: ReviewGeometry, owner: RowOwner): Option<string> {
    match owner
    case FileOwner(i) => if i < |g.sections| then Some(g.sections[i].fileId) else None
    case TrailerOwner => None
  }

  function Or<T>(a: Option<T>, b: Option<T>): Option<T> { if a.Some? then a else b }

  function Capture(g: ReviewGeometry, scrollTop: nat, selectedFile: Option<string>,
                   selectedHunk: Option<nat>): ViewportAnchor {
    match RowAtOffset(g, scrollTop)
    case Some(row) =>
      ViewportAnchor(Some(row.key), Monus(scrollTop, row.top), Or(OwnerFile(g, row.owner), selectedFile),
                     Or(row.key.hunkIndex, selectedHunk), scrollTop)
    case None => ViewportAnchor(None, 0, selectedFile, selectedHunk, scrollTop)
  }

  function RowByKey(g: ReviewGeometry, key: RowKey): Option<RowBounds> {
    if key in g.rowByKey && g.rowByKey[key] < |g.rows| then Some(g.rows[g.rowByKey[key]]) else None
  }

  function AnchorTop(g: ReviewGeometry, anchor: ViewportAnchor): nat {
    var row := if anchor.rowKey.Some? then RowByKey(g, anchor.rowKey.value) else None;
    if row.Some? then row.value.top + Min(anchor.intraRow, Monus(row.value.height, 1))
    else if anchor.fileId.Some? && anchor.hunkIndex.Some?
      && (anchor.fileId.value, anchor.hunkIndex.value) in g.hunkAnchorById
      && g.hunkAnchorById[(anchor.fileId.value, anchor.hunkIndex.value)] < |g.rows|
    then g.rows[g.hunkAnchorById[(anchor.fileId.value, anchor.hunkIndex.value)]].top
    else if anchor.fileId.Some? && anchor.fileId.value in g.fileById && g.fileById[anchor.fileId.value] < |g.sections|
    then g.sections[g.fileById[anchor.fileId.value]].bodyTop
    else anchor.absoluteOffset
  }

  function Restore(g: ReviewGeometry, anchor: ViewportAnchor): nat {
    Min(AnchorTop(g, anchor), g.MaxScrollTop())
  }

  // ---- Stability --------------------------------------------------------------------------

  /** Rows stacked, keys distinct, and the key index the one built from the rows. */
  ghost predicate WellKeyed(g: ReviewGeometry) {
    && Searchable(g)
    && (forall i, j :: 0 <= i < j < |g.rows| ==> g.rows[i].key != g.rows[j].key)
    && g.rowByKey == RowIndex(g.rows)
  }

  lemma {:induction false} DistinctIndex(rows: seq<RowBounds>, i: nat)
    requires i < |rows| && forall a, b :: 0 <= a < b < |rows| ==> rows[a].key != rows[b].key
    ensures rows[i].key in RowIndex(rows) && RowIndex(rows)[rows[i].key] == i
  {
    if i < |rows| - 1 { DistinctIndex(rows[..|rows| - 1], i); }
  }

  /** What an offset is restored to before clamping: itself inside a row, the next row's top above one. */
  function Settled(g: ReviewGeometry, offset: nat): nat
    requires g.rows != []
  {
    var k := RowIndexAt(g.rows, offset);
    if k < |g.rows| then Max(offset, g.rows[k].top)
    else g.rows[|g.rows| - 1].top + Monus(g.rows[|g.rows| - 1].height, 1)
  }

  lemma RestoreSettles(g: ReviewGeometry, offset: nat, file: Option<string>, hunk: Option<nat>)
    requires WellKeyed(g) && g.rows != []
    ensures Restore(g, Capture(g, offset, file, hunk)) == Min(Settled(g, offset), g.MaxScrollTop())
  {
    hide RowIndex;
    RowIndexIsFirst(g.rows, g.totalHeight, offset);
    var k := RowIndexAt(g.rows, offset);
    DistinctIndex(g.rows, if k < |g.rows| then k else |g.rows| - 1);
  }

  /** The first row below an offset that lies in none. */
  predicate IsNextRow(rows: seq<RowBounds>, offset: nat, i: nat) {
    i < |rows| && offset < rows[i].top && (i > 0 ==> rows[i - 1].Bottom() <= offset)
  }

  lemma SettledIsStable(g: ReviewGeometry, offset: nat)
    requires WellKeyed(g) && g.rows != []
    ensures var once := Min(Settled(g, offset), g.MaxScrollTop());
      && Min(Settled(g, once), g.MaxScrollTop()) == once
      && (InRow(g.rows, offset) && offset <= g.MaxScrollTop() ==> once == offset)
      && (!InRow(g.rows, offset) && offset < g.rows[|g.rows| - 1].Bottom() ==>
            exists i :: 0 <= i < |g.rows| && IsNextRow(g.rows, offset, i)
              && once == Min(g.rows[i].top, g.MaxScrollTop()))
  {
    hide RowIndexAt, RowIndex;
    var once := Min(Settled(g, offset), g.MaxScrollTop());
    RowIndexIsFirst(g.rows, g.totalHeight, offset);
    RowIndexIsFirst(g.rows, g.totalHeight, once);
    var k, j := RowIndexAt(g.rows, offset), RowIndexAt(g.rows, once);
    if k < |g.rows| {
      assert g.rows[k].top <= offset ==> InRow(g.rows, offset);
      assert offset < g.rows[k].top ==> IsNextRow(g.rows, offset, k);
      assert offset < g.rows[k].top ==> once == Min(g.rows[k].top, g.MaxScrollTop());
      assert once < g.rows[k].Bottom() && j <= k;
      if j < k { assert g.rows[j].Bottom() <= g.rows[k].top; }
    } else {
      var last := |g.rows| - 1;
      assert once < g.rows[last].Bottom() && j <= last;
      if j < last { assert g.rows[j].Bottom() <= g.rows[last].top; }
    }
  }

  /**
   * Restoring what was just captured keeps an offset inside a row, moves one on a separator or header to
   * the top of the next row, never passes the maximum scroll, and does nothing the second time.
   */
  lemma AnchorIsStable(g: ReviewGeometry, offset: nat, file: Option<string>, hunk: Option<nat>)
    requires WellKeyed(g) && g.rows != []
    ensures var once := Restore(g, Capture(g, offset, file, hunk));
      && once <= g.MaxScrollTop()
      && Restore(g, Capture(g, once, file, hunk)) == once
      && (InRow(g.rows, offset) && offset <= g.MaxScrollTop() ==> once == offset)
      && (!InRow(g.rows, offset) && offset < g.rows[|g.rows| - 1].Bottom() ==>
            exists i :: 0 <= i < |g.rows| && IsNextRow(g.rows, offset, i)
              && once == Min(g.rows[i].top, g.MaxScrollTop()))
  {
    hide Restore, Capture, Settled, WellKeyed, InRow;
    RestoreSettles(g, offset, file, hunk);
    RestoreSettles(g, Min(Settled(g, offset), g.MaxScrollTop()), file, hunk);
    SettledIsStable(g, offset);
  }

  /** In a changed geometry the view lands inside the row with the captured key, unless the end clamps it. */
  lemma AnchorFollowsRow(before: ReviewGeometry, after: ReviewGeometry, offset: nat, i: nat, j: nat,
                         file: Option<string>, hunk: Option<nat>)
    requires WellKeyed(before) && WellKeyed(after) && i < |before.rows| && j < |after.rows|
    requires before.rows[i].top <= offset < before.rows[i].Bottom() && before.rows[i].key == after.rows[j].key
    ensures var restored := Restore(after, Capture(before, offset, file, hunk));
      && (restored == after.MaxScrollTop()
          || after.rows[j].top <= restored < after.rows[j].Bottom())
      && (after.rows[j].top + (offset - before.rows[i].top) <= after.MaxScrollTop()
          && offset - before.rows[i].top < after.rows[j].height
          ==> restored - after.rows[j].top == offset - before.rows[i].top)
  {
    RowAtOffsetIsFirst(before, offset, i);
    DistinctIndex(after.rows, j);
  }
}
