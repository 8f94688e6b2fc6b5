/** Vertical geometry: every planned row gets an interval of the document, found again by binary search. */
module Geometry {
  import opened Text
  import opened DiffModel
  import opened Emphasis
  import opened Rows
  import opened Plan

  datatype PlannedFile = PlannedFile(fileId: string, plan: RowPlan, compacted: bool)

  datatype GeometryOptions = GeometryOptions(contentWidth: nat, viewportHeight: nat, lineNumbers: bool, wrapLines: bool)

  datatype RowOwner = FileOwner(fileIndex: nat) | TrailerOwner

  datatype RowBounds = RowBounds(key: RowKey, top: nat, height: nat, owner: RowOwner, rowIndex: nat) {
    function Bottom(): nat { top + height }
  }

  datatype FileSection = FileSection(fileId: string, fileIndex: nat, sectionTop: nat, separatorHeight: nat,
                                     headerTop: nat, headerHeight: nat, bodyTop: nat, bodyHeight: nat,
                                     sectionBottom: nat)

  datatype TrailerSection = TrailerSection(sectionTop: nat, headerTop: nat, bodyTop: nat, bodyHeight: nat,
                                           sectionBottom: nat)

  datatype ReviewGeometry = ReviewGeometry(
    sections: seq<FileSection>, trailer: Option<TrailerSection>, rows: seq<RowBounds>, totalHeight: nat,
    viewportHeight: nat, rowByKey: map<RowKey, nat>, fileById: map<string, nat>, hunkAnchorById: map<(string, nat),
    nat>)
  {
    function MaxScrollTop(): nat { Monus(totalHeight, viewportHeight) }
  }

  // ---- Row heights ------------------------------------------------------------------------

  function StackCodeWidth(o: GeometryOptions, digits: nat): nat {
    Monus(Monus(o.contentWidth, 1), if o.lineNumbers then digits * 2 + 5 else 2)
  }

  function SplitCodeWidths(o: GeometryOptions, digits: nat): (nat, nat) {
    var usable := Monus(o.contentWidth, 2);
    var gutter := if o.lineNumbers then digits + 3 else 2;
    (Monus(usable / 2, gutter), Monus(usable - usable / 2, gutter))
  }

  function CeilDiv(a: nat, b: nat): nat
    requires b > 0
  {
    (a + b - 1) / b
  }

  lemma CeilDivPositive(a: nat, b: nat)
    requires a > 0 && b > 0
    ensures CeilDiv(a, b) >= 1
  {
    assert a + b - 1 >= b;
  }

  function WrappedHeight(w: CellWidth, cell: ReviewCell, width: nat): (h: nat)
    ensures h >= 1
  {
    if width == 0 then 1 else
      CeilDivPositive(Max(Cells(w, SpansText(cell.spans)), 1), width);
      CeilDiv(Max(Cells(w, SpansText(cell.spans)), 1), width)
  }

  function RowHeight(w: CellWidth, row: Row, digits: nat, o: GeometryOptions): (h: nat)
    ensures h >= 1
  {
    match row
    case Note(_, card) => card.Height()
    case Line(Stack(_, cell)) => if o.wrapLines then WrappedHeight(w, cell, StackCodeWidth(o, digits)) else 1
    case Line(Split(_, left, right)) =>
      if o.wrapLines then
        var (leftWidth, rightWidth) := SplitCodeWidths(o, digits);
        Max(WrappedHeight(w, left, leftWidth), WrappedHeight(w, right, rightWidth))
      else 1
    case _ => 1
  }

  // ---- Laying rows out --------------------------------------------------------------------

  /** The first n rows of a body placed from `top` down. */
  function BodyRows(w: CellWidth, plan: RowPlan, o: GeometryOptions, owner: RowOwner, top: nat,
                    n: nat): (rows: seq<RowBounds>)
    requires n <= |plan.rows|
    ensures |rows| == n
  {
    if n == 0 then [] else
      BodyRows(w, plan, o, owner, top, n - 1)
      + [RowBounds(plan.rows[n - 1].Key(), top + BodyHeight(w, plan, o, n - 1),
                   RowHeight(w, plan.rows[n - 1], plan.digits, o), owner, n - 1)]
  }

  function BodyHeight(w: CellWidth, plan: RowPlan, o: GeometryOptions, n: nat): nat
    requires n <= |plan.rows|
  {
    if n == 0 then 0 else BodyHeight(w, plan, o, n - 1) + RowHeight(w, plan.rows[n - 1], plan.digits, o)
  }

  function SectionAt(w: CellWidth, file: PlannedFile, o: GeometryOptions, index: nat, top: nat): FileSection {
    var separator, header := if index > 0 then 1 else 0, if file.compacted then 0 else 1;
    var height := BodyHeight(w, file.plan, o, |file.plan.rows|);
    FileSection(file.fileId, index, top, separator, top + separator, header, top + separator + header, height,
                top + separator + header + height)
  }

  /** Where the first n files end. */
  function FilesBottom(w: CellWidth, files: seq<PlannedFile>, o: GeometryOptions, n: nat): nat
    requires n <= |files|
  {
    if n == 0 then 0
    else SectionAt(w, files[n - 1], o, n - 1, FilesBottom(w, files, o, n - 1)).sectionBottom
  }

  function Sections(w: CellWidth, files: seq<PlannedFile>, o: GeometryOptions, n: nat): seq<FileSection>
    requires n <= |files|
  {
    if n == 0 then []
    else Sections(w, files, o, n - 1) + [SectionAt(w, files[n - 1], o, n - 1, FilesBottom(w, files, o, n - 1))]
  }

  function FileRows(w: CellWidth, files: seq<PlannedFile>, o: GeometryOptions, n: nat): seq<RowBounds>
    requires n <= |files|
  {
    if n == 0 then [] else
      var file := files[n - 1];
      var section := SectionAt(w, file, o, n - 1, FilesBottom(w, files, o, n - 1));
      FileRows(w, files, o, n - 1) + BodyRows(w, file.plan, o, FileOwner(n - 1), section.bodyTop, |file.plan.rows|)
  }

  /** Index of each row key; a repeated key names its last row. */
  function RowIndex(rows: seq<RowBounds>): map<RowKey, nat> {
    if rows == [] then map[] else RowIndex(rows[..|rows| - 1])[rows[|rows| - 1].key := |rows| - 1]
  }

  function FileIndex(files: seq<PlannedFile>, n: nat): map<string, nat>
    requires n <= |files|
  {
    if n == 0 then map[] else FileIndex(files, n - 1)[files[n - 1].fileId := n - 1]
  }

  function AnchorEntries(index: map<RowKey, nat>, file: PlannedFile, before: map<(string, nat), nat>,
                         n: nat): map<(string, nat), nat>
    requires n <= |file.plan.hunkAnchors|
  {
    if n == 0 then before else
      var entries, key := AnchorEntries(index, file, before, n - 1), file.plan.hunkAnchors[n - 1];
      if key in index then entries[(file.fileId, n - 1) := index[key]] else entries
  }

  function HunkAnchors(w: CellWidth, files: seq<PlannedFile>, o: GeometryOptions, n: nat): map<(string, nat), nat>
    requires n <= |files|
  {
    if n == 0 then map[]
    else AnchorEntries(RowIndex(FileRows(w, files, o, n)), files[n - 1], HunkAnchors(w, files, o, n - 1),
                       |files[n - 1].plan.hunkAnchors|)
  }

  function TrailerAt(w: CellWidth, plan: RowPlan, o: GeometryOptions, top: nat): TrailerSection {
    var height := BodyHeight(w, plan, o, |plan.rows|);
    TrailerSection(top, top + 1, top + 2, height, top + 2 + height)
  }

  predicate HasTrailer(trailer: Option<RowPlan>) { trailer.Some? && trailer.value.rows != [] }

  function TrailerRows(w: CellWidth, trailer: Option<RowPlan>, o: GeometryOptions, top: nat): seq<RowBounds> {
    if HasTrailer(trailer)
    then BodyRows(w, trailer.value, o, TrailerOwner, top + 2, |trailer.value.rows|) else []
  }

  function GeometryOf(w: CellWidth, files: seq<PlannedFile>, trailer: Option<RowPlan>,
                      o: GeometryOptions): ReviewGeometry {
    var n := |files|;
    var top := FilesBottom(w, files, o, n);
    var rows := FileRows(w, files, o, n) + TrailerRows(w, trailer, o, top);
    var tail := if HasTrailer(trailer) then Some(TrailerAt(w, trailer.value, o, top)) else None;
    ReviewGeometry(Sections(w, files, o, n), tail, rows, if tail.Some? then tail.value.sectionBottom else top,
                   o.viewportHeight, RowIndex(rows), FileIndex(files, n), HunkAnchors(w, files, o, n))
  }

  // ---- The loops --------------------------------------------------------------------------

  lemma RowIndexPush(rows: seq<RowBounds>, bound: RowBounds)
    ensures RowIndex(rows + [bound]) == RowIndex(rows)[bound.key := |rows|]
  {
    assert (rows + [bound])[..|rows|] == rows;
  }

  method PlaceBody(w: CellWidth, plan: RowPlan, o: GeometryOptions, owner: RowOwner, bodyTop: nat,
                   before: seq<RowBounds>, indexBefore: map<RowKey, nat>)
    returns (rows: seq<RowBounds>, index: map<RowKey, nat>, bodyHeight: nat)
    requires indexBefore == RowIndex(before)
    ensures rows == before + BodyRows(w, plan, o, owner, bodyTop, |plan.rows|)
    ensures index == RowIndex(rows) && bodyHeight == BodyHeight(w, plan, o, |plan.rows|)
  {
    rows, index, bodyHeight := before, indexBefore, 0;
    for i := 0 to |plan.rows|
      invariant rows == before + BodyRows(w, plan, o, owner, bodyTop, i)
      invariant index == RowIndex(rows) && bodyHeight == BodyHeight(w, plan, o, i)
    {
      var height := RowHeight(w, plan.rows[i], plan.digits, o);
      var bound := RowBounds(plan.rows[i].Key(), bodyTop + bodyHeight, height, owner, i);
      RowIndexPush(rows, bound);
      index := index[bound.key := |rows|];
      rows := rows + [bound];
      bodyHeight := bodyHeight + height;
    }
  }

  method RecordAnchors(index: map<RowKey, nat>, file: PlannedFile, before: map<(string, nat), nat>)
    returns (anchors: map<(string, nat), nat>)
    ensures anchors == AnchorEntries(index, file, before, |file.plan.hunkAnchors|)
  {
    anchors := before;
    for i := 0 to |file.plan.hunkAnchors|
      invariant anchors == AnchorEntries(index, file, before, i)
    {
      if file.plan.hunkAnchors[i] in index {
        anchors := anchors[(file.fileId, i) := index[file.plan.hunkAnchors[i]]];
      }
    }
  }

  method BuildReviewGeometry(w: CellWidth, files: seq<PlannedFile>, trailer: Option<RowPlan>, o: GeometryOptions)
    returns (g: ReviewGeometry)
    ensures g == GeometryOf(w, files, trailer, o)
  {
    hide RowHeight, BodyHeight, RowIndex, AnchorEntries, BodyRows;
    var sections, rows := [], [];
    var cursor: nat, rowByKey, fileById, anchors := 0, map[], map[], map[];
    EmptyIndex();
    for i := 0 to |files|
      invariant sections == Sections(w, files, o, i) && rows == FileRows(w, files, o, i)
      invariant cursor == FilesBottom(w, files, o, i) && rowByKey == RowIndex(rows)
      invariant fileById == FileIndex(files, i) && anchors == HunkAnchors(w, files, o, i)
    {
      var file := files[i];
      var section := SectionAt(w, file, o, i, cursor);
      var height: nat;
      rows, rowByKey, height := PlaceBody(w, file.plan, o, FileOwner(i), section.bodyTop, rows, rowByKey);
      anchors := RecordAnchors(rowByKey, file, anchors);
      fileById := fileById[file.fileId := i];
      sections := sections + [section];
      cursor := section.bodyTop + height;
    }
    var tail := None;
    if trailer.Some? && trailer.value.rows != [] {
      var height: nat;
      rows, rowByKey, height := PlaceBody(w, trailer.value, o, TrailerOwner, cursor + 2, rows, rowByKey);
      tail := Some(TrailerSection(cursor, cursor + 1, cursor + 2, height, cursor + 2 + height));
      cursor := cursor + 2 + height;
    } else {
      assert rows + [] == rows;
    }
    g := ReviewGeometry(sections, tail, rows, cursor, o.viewportHeight, rowByKey, fileById, anchors);
  }

  lemma EmptyIndex()
    ensures RowIndex([]) == map[]
  {
  }

  // ---- Searching --------------------------------------------------------------------------

  /** Binary search for the first element of s[lo..hi] that p rejects. */
  function PartitionPoint<T>(s: seq<T>, p: T -> bool, lo: nat, hi: nat): (k: nat)
    requires lo <= hi <= |s|
    ensures lo <= k <= hi
    decreases hi - lo
  {
    if lo == hi then lo else
      var mid := (lo + hi) / 2;
      if p(s[mid]) then PartitionPoint(s, p, mid + 1, hi) else PartitionPoint(s, p, lo, mid)
  }

  /** Linear search for the same element. */
  function FirstRejected<T>(s: seq<T>, p: T -> bool, from: nat): (k: nat)
    requires from <= |s|
    ensures from <= k <= |s|
    ensures forall i :: from <= i < k ==> p(s[i])
    ensures k < |s| ==> !p(s[k])
    decreases |s| - from
  {
    if from == |s| || !p(s[from]) then from else FirstRejected(s, p, from + 1)
  }

  ghost predicate Partitioned<T>(s: seq<T>, p: T -> bool) {
    forall i, j :: 0 <= i < j < |s| && p(s[j]) ==> p(s[i])
  }

  lemma {:induction false} SearchesAgree<T>(s: seq<T>, p: T -> bool, lo: nat, hi: nat)
    requires lo <= hi <= |s| && Partitioned(s, p)
    requires (forall i :: 0 <= i < lo ==> p(s[i])) && (forall i :: hi <= i < |s| ==> !p(s[i]))
    ensures PartitionPoint(s, p, lo, hi) == FirstRejected(s, p, 0)
    decreases hi - lo
  {
    if lo < hi {
      var mid := (lo + hi) / 2;
      if p(s[mid]) { SearchesAgree(s, p, mid + 1, hi); } else { SearchesAgree(s, p, lo, mid); }
    } else {
      var k := FirstRejected(s, p, 0);
      assert lo < |s| ==> !p(s[lo]);
      assert k < |s| ==> !p(s[k]);
    }
  }

  function RowIndexAt(rows: seq<RowBounds>, offset: nat): nat {
    PartitionPoint(rows, (row: RowBounds) => row.Bottom() <= offset, 0, |rows|)
  }

  function RowAtOffset(g: ReviewGeometry, offset: nat): Option<RowBounds> {
    if g.rows == [] then None else
      var index := RowIndexAt(g.rows, offset);
      Some(if index < |g.rows| then g.rows[index] else g.rows[|g.rows| - 1])
  }

  function FileAtOffset(g: ReviewGeometry, offset: nat): Option<nat> {
    if g.sections == [] then None else
      var next := PartitionPoint(g.sections, (s: FileSection) => s.sectionTop <= offset, 0, |g.sections|);
      Some(Min(Monus(next, 1), |g.sections| - 1))
  }

  datatype VisibleWindow = VisibleWindow(start: nat, end: nat, topSpacer: nat, bottomSpacer: nat)

  function WindowOf(g: ReviewGeometry, scrollTop: nat, viewportHeight: nat, overscan: nat): VisibleWindow {
    if g.rows == [] then VisibleWindow(0, 0, 0, g.totalHeight) else
      var low, high := Monus(scrollTop, overscan), scrollTop + viewportHeight + overscan;
      var start := RowIndexAt(g.rows, low);
      var end := Max(PartitionPoint(g.rows, (row: RowBounds) => row.top < high, 0, |g.rows|), start);
      var topSpacer := if start < |g.rows| then g.rows[start].top else g.totalHeight;
      var rendered := if end > 0 && end - 1 < |g.rows| then g.rows[end - 1].Bottom() else topSpacer;
      VisibleWindow(start, end, topSpacer, Monus(g.totalHeight, rendered))
  }
}
