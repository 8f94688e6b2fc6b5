/** The indices of a geometry name the right rows and files, so a view whose row is gone falls back as intended. */
module AnchorProofs {
  import opened Text
  import opened DiffModel
  import opened Rows
  import opened Plan
  import opened Geometry
  import opened Anchor

  ghost predicate DistinctIds(files: seq<PlannedFile>) {
    forall i, j :: 0 <= i < j < |files| ==> files[i].fileId != files[j].fileId
  }

  ghost predicate HasKey(rows: seq<RowBounds>, r: nat, key: RowKey) { r < |rows| && rows[r].key == key }

  ghost predicate DistinctKeys(rows: seq<RowBounds>) {
    forall i, j :: 0 <= i < j < |rows| ==> rows[i].key != rows[j].key
  }

  // ---- Indices ----------------------------------------------------------------------------

  lemma {:induction false} FileIndexFinds(files: seq<PlannedFile>, n: nat)
    requires DistinctIds(files) && n <= |files|
    ensures forall i :: 0 <= i < n ==>
      files[i].fileId in FileIndex(files, n) && FileIndex(files, n)[files[i].fileId] == i
    ensures forall id :: id in FileIndex(files, n) ==> exists i :: 0 <= i < n && files[i].fileId == id
  {
    if n > 0 { FileIndexFinds(files, n - 1); }
  }

  lemma {:induction false} RowIndexFinds(rows: seq<RowBounds>)
    ensures forall key :: key in RowIndex(rows) ==> HasKey(rows, RowIndex(rows)[key], key)
    ensures forall r, key :: HasKey(rows, r, key) ==> key in RowIndex(rows)
  {
    if rows != [] {
      var front := rows[..|rows| - 1];
      RowIndexFinds(front);
      forall r: nat, key | HasKey(rows, r, key) ensures key in RowIndex(rows) {
        if r < |front| { assert HasKey(front, r, key); }
      }
    }
  }

  /** Entry (id, h) names a row with the key of anchor h of the file with that id. */
  ghost predicate Names(files: seq<PlannedFile>, n: nat, rows: seq<RowBounds>, id: string, h: nat, r: nat)
    requires n <= |files|
  {
    exists i: nat :: i < n && files[i].fileId == id && h < |files[i].plan.hunkAnchors|
      && HasKey(rows, r, files[i].plan.hunkAnchors[h])
  }

  ghost predicate OfFile(rows: seq<RowBounds>, r: nat, i: nat, key: RowKey) {
    HasKey(rows, r, key) && rows[r].owner == FileOwner(i)
  }

  ghost predicate Recorded(files: seq<PlannedFile>, n: nat, rows: seq<RowBounds>, anchors: map<(string, nat), nat>)
    requires n <= |files|
  {
    && (forall id, h :: (id, h) in anchors ==> Names(files, n, rows, id, h, anchors[(id, h)]))
    && (forall i: nat, h: nat, r: nat ::
          (i < n && h < |files[i].plan.hunkAnchors| && OfFile(rows, r, i, files[i].plan.hunkAnchors[h]))
          ==> (files[i].fileId, h) in anchors)
  }

  ghost predicate Entered(file: PlannedFile, rows: seq<RowBounds>, n: nat, id: string, h: nat, r: nat)
    requires n <= |file.plan.hunkAnchors|
  {
    id == file.fileId && h < n && HasKey(rows, r, file.plan.hunkAnchors[h])
  }

  lemma {:induction false} EntriesRecord(rows: seq<RowBounds>, file: PlannedFile, before: map<(string, nat), nat>,
                                         n: nat)
    requires n <= |file.plan.hunkAnchors|
    ensures var entries := AnchorEntries(RowIndex(rows), file, before, n);
      && (forall id, h :: (id, h) in entries ==>
            Entered(file, rows, n, id, h, entries[(id, h)])
              || ((id, h) in before && entries[(id, h)] == before[(id, h)]))
      && (forall id, h :: (id, h) in before ==> (id, h) in entries)
      && (forall h: nat, r: nat :: h < n && HasKey(rows, r, file.plan.hunkAnchors[h]) ==> (file.fileId, h) in entries)
  {
    RowIndexFinds(rows);
    hide RowIndex;
    if n > 0 { EntriesRecord(rows, file, before, n - 1); }
  }

  lemma {:induction false} BodyOwners(w: CellWidth, plan: RowPlan, o: GeometryOptions, owner: RowOwner, top: nat,
                                      n: nat)
    requires n <= |plan.rows|
    ensures forall r :: 0 <= r < |BodyRows(w, plan, o, owner, top, n)| ==>
      BodyRows(w, plan, o, owner, top, n)[r].owner == owner
  {
    if n > 0 { BodyOwners(w, plan, o, owner, top, n - 1); }
  }

  lemma {:induction false} RowOwners(w: CellWidth, files: seq<PlannedFile>, o: GeometryOptions, n: nat)
    requires n <= |files|
    ensures forall r :: 0 <= r < |FileRows(w, files, o, n)| ==>
      var owner := FileRows(w, files, o, n)[r].owner; owner.FileOwner? && owner.fileIndex < n
  {
    if n > 0 {
      RowOwners(w, files, o, n - 1);
      var section := SectionAt(w, files[n - 1], o, n - 1, FilesBottom(w, files, o, n - 1));
      BodyOwners(w, files[n - 1].plan, o, FileOwner(n - 1), section.bodyTop, |files[n - 1].plan.rows|);
    }
  }

  lemma NamesMore(files: seq<PlannedFile>, n: nat, rows: seq<RowBounds>, more: seq<RowBounds>, id: string, h: nat,
                  r: nat)
    requires 0 < n <= |files| && Names(files, n - 1, rows, id, h, r)
    ensures Names(files, n, rows + more, id, h, r)
  {
    var i: nat :| i < n - 1 && files[i].fileId == id && h < |files[i].plan.hunkAnchors|
      && HasKey(rows, r, files[i].plan.hunkAnchors[h]);
    assert HasKey(rows + more, r, files[i].plan.hunkAnchors[h]);
  }

  lemma {:induction false} AnchorsRecorded(w: CellWidth, files: seq<PlannedFile>, o: GeometryOptions, n: nat)
    requires n <= |files|
    ensures Recorded(files, n, FileRows(w, files, o, n), HunkAnchors(w, files, o, n))
  {
    if n > 0 {
      hide AnchorEntries, RowIndex, BodyRows, BodyHeight, FilesBottom, Names;
      AnchorsRecorded(w, files, o, n - 1);
      RowOwners(w, files, o, n - 1);
      var file := files[n - 1];
      var before, rows := FileRows(w, files, o, n - 1), FileRows(w, files, o, n);
      var section := SectionAt(w, file, o, n - 1, FilesBottom(w, files, o, n - 1));
      var body := BodyRows(w, file.plan, o, FileOwner(n - 1), section.bodyTop, |file.plan.rows|);
      BodyOwners(w, file.plan, o, FileOwner(n - 1), section.bodyTop, |file.plan.rows|);
      EntriesRecord(rows, file, HunkAnchors(w, files, o, n - 1), |file.plan.hunkAnchors|);
      OneMoreFile(files, n, before, body, HunkAnchors(w, files, o, n - 1), HunkAnchors(w, files, o, n));
    }
  }

  lemma OneMoreFile(files: seq<PlannedFile>, n: nat, before: seq<RowBounds>, body: seq<RowBounds>,
                    anchors: map<(string, nat), nat>, after: map<(string, nat), nat>)
    requires 0 < n <= |files| && Recorded(files, n - 1, before, anchors)
    requires forall r :: 0 <= r < |body| ==> body[r].owner == FileOwner(n - 1)
    requires var file, rows := files[n - 1], before + body;
      && (forall id, h :: (id, h) in after ==>
            Entered(file, rows, |file.plan.hunkAnchors|, id, h, after[(id, h)])
            || ((id, h) in anchors && after[(id, h)] == anchors[(id, h)]))
      && (forall id, h :: (id, h) in anchors ==> (id, h) in after)
      && (forall h: nat, r: nat :: h < |file.plan.hunkAnchors| && HasKey(rows, r, file.plan.hunkAnchors[h])
            ==> (file.fileId, h) in after)
    ensures Recorded(files, n, before + body, after)
  {
    var rows := before + body;
    forall id, h | (id, h) in after ensures Names(files, n, rows, id, h, after[(id, h)]) {
      if !Entered(files[n - 1], rows, |files[n - 1].plan.hunkAnchors|, id, h, after[(id, h)]) {
        NamesMore(files, n, before, body, id, h, after[(id, h)]);
      }
    }
    assert forall q :: |before| <= q < |rows| ==> rows[q] == body[q - |before|];
    forall i: nat, h: nat, r: nat | i < n && h < |files[i].plan.hunkAnchors|
      && OfFile(rows, r, i, files[i].plan.hunkAnchors[h])
      ensures (files[i].fileId, h) in after
    {
      if i < n - 1 {
        assert OfFile(before, r, i, files[i].plan.hunkAnchors[h]);
      }
    }
  }

  // ---- Falling back -----------------------------------------------------------------------

  /** Anchor h of file i is on row r. */
  ghost predicate AnchoredAt(g: ReviewGeometry, files: seq<PlannedFile>, i: nat, h: nat, r: nat) {
    i < |files| && h < |files[i].plan.hunkAnchors| && OfFile(g.rows, r, i, files[i].plan.hunkAnchors[h])
  }

  ghost predicate IsGone(g: ReviewGeometry, anchor: ViewportAnchor) {
    anchor.rowKey.Some? ==> forall r: nat :: !HasKey(g.rows, r, anchor.rowKey.value)
  }

  lemma AnchorIsIndexed(w: CellWidth, files: seq<PlannedFile>, trailer: Option<RowPlan>, o: GeometryOptions, i: nat,
                        h: nat)
    requires DistinctIds(files) && i < |files| && DistinctKeys(GeometryOf(w, files, trailer, o).rows)
    ensures var g := GeometryOf(w, files, trailer, o);
      && (forall r: nat :: AnchoredAt(g, files, i, h, r) ==>
            (files[i].fileId, h) in g.hunkAnchorById && g.hunkAnchorById[(files[i].fileId, h)] == r)
      && ((files[i].fileId, h) in g.hunkAnchorById ==>
            h < |files[i].plan.hunkAnchors|
            && HasKey(g.rows, g.hunkAnchorById[(files[i].fileId, h)], files[i].plan.hunkAnchors[h]))
  {
    hide HunkAnchors, FileRows, FilesBottom, BodyRows, BodyHeight, RowIndex, FileIndex, Sections;
    var g := GeometryOf(w, files, trailer, o);
    var rows := FileRows(w, files, o, |files|);
    var tail := TrailerRows(w, trailer, o, FilesBottom(w, files, o, |files|));
    AnchorsRecorded(w, files, o, |files|);
    if HasTrailer(trailer) {
      BodyOwners(w, trailer.value, o, TrailerOwner, FilesBottom(w, files, o, |files|) + 2, |trailer.value.rows|);
    }
    assert forall q :: |rows| <= q < |g.rows| ==> g.rows[q].owner == TrailerOwner by {
      assert forall q :: |rows| <= q < |g.rows| ==> g.rows[q] == tail[q - |rows|];
    }
    if (files[i].fileId, h) in g.hunkAnchorById {
      NamesOne(files, rows, tail, i, h, g.hunkAnchorById[(files[i].fileId, h)]);
    }
    forall r: nat | AnchoredAt(g, files, i, h, r)
      ensures (files[i].fileId, h) in g.hunkAnchorById && g.hunkAnchorById[(files[i].fileId, h)] == r
    {
      assert r < |rows|;
      assert OfFile(rows, r, i, files[i].plan.hunkAnchors[h]);
      NamesOne(files, rows, tail, i, h, g.hunkAnchorById[(files[i].fileId, h)]);
    }
  }

  lemma NamesOne(files: seq<PlannedFile>, rows: seq<RowBounds>, tail: seq<RowBounds>, i: nat, h: nat, r: nat)
    requires DistinctIds(files) && i < |files| && Names(files, |files|, rows, files[i].fileId, h, r)
    ensures h < |files[i].plan.hunkAnchors| && HasKey(rows + tail, r, files[i].plan.hunkAnchors[h])
  {
  }

  /** When the row at the top of the view is gone, the view goes to the first line of the hunk it was in. */
  lemma GoneGoesToHunk(w: CellWidth, files: seq<PlannedFile>, trailer: Option<RowPlan>, o: GeometryOptions,
                       anchor: ViewportAnchor, i: nat, h: nat, r: nat)
    requires DistinctIds(files) && DistinctKeys(GeometryOf(w, files, trailer, o).rows)
    requires IsGone(GeometryOf(w, files, trailer, o), anchor) && i < |files|
    requires AnchoredAt(GeometryOf(w, files, trailer, o), files, i, h, r)
    requires anchor.fileId == Some(files[i].fileId) && anchor.hunkIndex == Some(h)
    ensures var g := GeometryOf(w, files, trailer, o); Restore(g, anchor) == Min(g.rows[r].top, g.MaxScrollTop())
  {
    hide GeometryOf;
    AnchorIsIndexed(w, files, trailer, o, i, h);
    NoKey(w, files, trailer, o, anchor);
  }

  /** When no row is left of that hunk either, to the start of the file. */
  lemma GoneGoesToFile(w: CellWidth, files: seq<PlannedFile>, trailer: Option<RowPlan>, o: GeometryOptions,
                       anchor: ViewportAnchor, i: nat)
    requires DistinctIds(files) && DistinctKeys(GeometryOf(w, files, trailer, o).rows)
    requires IsGone(GeometryOf(w, files, trailer, o), anchor) && i < |files| && anchor.fileId == Some(files[i].fileId)
    requires anchor.hunkIndex.Some? && anchor.hunkIndex.value < |files[i].plan.hunkAnchors| ==> (
      forall r: nat :: !HasKey(GeometryOf(w, files, trailer, o).rows, r,
        files[i].plan.hunkAnchors[anchor.hunkIndex.value]))
    ensures var g := GeometryOf(w, files, trailer, o);
      i < |g.sections| && g.sections[i].fileId == files[i].fileId
      && Restore(g, anchor) == Min(g.sections[i].bodyTop, g.MaxScrollTop())
  {
    NoKey(w, files, trailer, o, anchor);
    FileIsIndexed(w, files, trailer, o, i);
    hide GeometryOf;
    if anchor.hunkIndex.Some? { AnchorIsIndexed(w, files, trailer, o, i, anchor.hunkIndex.value); }
  }

  /** And when the file is gone too, it stays at the offset it was at. */
  lemma GoneStays(w: CellWidth, files: seq<PlannedFile>, trailer: Option<RowPlan>, o: GeometryOptions,
                  anchor: ViewportAnchor)
    requires DistinctIds(files) && IsGone(GeometryOf(w, files, trailer, o), anchor)
    requires anchor.fileId.Some? ==> forall i :: 0 <= i < |files| ==> files[i].fileId != anchor.fileId.value
    ensures var g := GeometryOf(w, files, trailer, o);
      Restore(g, anchor) == Min(anchor.absoluteOffset, g.MaxScrollTop())
  {
    hide RowIndex, FileRows, FilesBottom, Sections, HunkAnchors;
    NoKey(w, files, trailer, o, anchor);
    FileIndexFinds(files, |files|);
    AnchorsRecorded(w, files, o, |files|);
    var anchors := HunkAnchors(w, files, o, |files|);
    forall id, h | (id, h) in anchors ensures exists i :: 0 <= i < |files| && files[i].fileId == id {
      assert Names(files, |files|, FileRows(w, files, o, |files|), id, h, anchors[(id, h)]);
    }
  }

  lemma NoKey(w: CellWidth, files: seq<PlannedFile>, trailer: Option<RowPlan>, o: GeometryOptions,
              anchor: ViewportAnchor)
    requires IsGone(GeometryOf(w, files, trailer, o), anchor)
    ensures anchor.rowKey.Some? ==> RowByKey(GeometryOf(w, files, trailer, o), anchor.rowKey.value).None?
  {
    hide RowIndex;
    RowIndexFinds(GeometryOf(w, files, trailer, o).rows);
  }

  lemma FileIsIndexed(w: CellWidth, files: seq<PlannedFile>, trailer: Option<RowPlan>, o: GeometryOptions, i: nat)
    requires DistinctIds(files) && i < |files|
    ensures var g := GeometryOf(w, files, trailer, o);
      && files[i].fileId in g.fileById && g.fileById[files[i].fileId] == i
      && i < |g.sections| && g.sections[i].fileId == files[i].fileId
  {
    FileIndexFinds(files, |files|);
    SectionsAre(w, files, o, |files|);
  }

  lemma {:induction false} SectionsAre(w: CellWidth, files: seq<PlannedFile>, o: GeometryOptions, n: nat)
    requires n <= |files|
    ensures |Sections(w, files, o, n)| == n
    ensures forall i :: 0 <= i < n ==> Sections(w, files, o, n)[i].fileId == files[i].fileId
  {
    if n > 0 { SectionsAre(w, files, o, n - 1); }
  }
}
