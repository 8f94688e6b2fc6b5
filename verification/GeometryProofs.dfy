/** The geometry tiles the document, its searches find what a scan would, and anchors are stable. */
module GeometryProofs {
  import opened Text
  import opened DiffModel
  import opened Emphasis
  import opened Rows
  import opened Plan
  import opened Geometry

  // ---- Tiling -----------------------------------------------------------------------------

  /** Separator and header lines, as half-open intervals [from, to) between the rows. */
  datatype Chrome = Chrome(from: nat, to: nat)

  function SectionChrome(sections: seq<FileSection>): seq<Chrome> {
    if sections == [] then [] else
      var last := sections[|sections| - 1];
      SectionChrome(sections[..|sections| - 1]) + [Chrome(last.sectionTop, last.bodyTop)]
  }

  function AllChrome(g: ReviewGeometry): seq<Chrome> {
    SectionChrome(g.sections)
    + (if g.trailer.Some? then [Chrome(g.trailer.value.sectionTop, g.trailer.value.bodyTop)] else [])
  }

  predicate InRow(rows: seq<RowBounds>, offset: nat) {
    exists i :: 0 <= i < |rows| && rows[i].top <= offset < rows[i].Bottom()
  }

  predicate InChrome(chrome: seq<Chrome>, offset: nat) {
    exists i :: 0 <= i < |chrome| && chrome[i].from <= offset < chrome[i].to
  }

  /** Rows are at least one line high, in order, disjoint, and end by `limit`. */
  ghost predicate Stacked(rows: seq<RowBounds>, limit: nat) {
    && (forall i :: 0 <= i < |rows| ==> rows[i].height >= 1 && rows[i].Bottom() <= limit)
    && (forall i, j :: 0 <= i < j < |rows| ==> rows[i].Bottom() <= rows[j].top)
  }

  /** Every line below `limit` belongs to a row or to chrome, and to only one of the two. */
  ghost predicate Tiled(rows: seq<RowBounds>, chrome: seq<Chrome>, limit: nat) {
    && Stacked(rows, limit)
    && (forall i :: 0 <= i < |chrome| ==> chrome[i].to <= limit)
    && (forall offset :: 0 <= offset < limit ==> (InRow(rows, offset) <==> !InChrome(chrome, offset)))
  }

  lemma TileRow(rows: seq<RowBounds>, chrome: seq<Chrome>, limit: nat, bound: RowBounds)
    requires Tiled(rows, chrome, limit) && bound.top == limit && bound.height >= 1
    ensures Tiled(rows + [bound], chrome, bound.Bottom())
  {
    var after := rows + [bound];
    forall offset | 0 <= offset < bound.Bottom() ensures InRow(after, offset) <==> !InChrome(chrome, offset) {
      if offset < limit {
        if InRow(rows, offset) {
          var i :| 0 <= i < |rows| && rows[i].top <= offset < rows[i].Bottom();
          assert after[i] == rows[i];
        }
        if InRow(after, offset) {
          var i :| 0 <= i < |after| && after[i].top <= offset < after[i].Bottom();
          assert i < |rows| && rows[i] == after[i];
        }
      } else {
        assert after[|rows|] == bound;
      }
    }
  }

  lemma TileChrome(rows: seq<RowBounds>, chrome: seq<Chrome>, limit: nat, to: nat)
    requires Tiled(rows, chrome, limit) && limit <= to
    ensures Tiled(rows, chrome + [Chrome(limit, to)], to)
  {
    var after := chrome + [Chrome(limit, to)];
    forall offset | 0 <= offset < to ensures InRow(rows, offset) <==> !InChrome(after, offset) {
      if offset < limit {
        if InChrome(chrome, offset) {
          var i :| 0 <= i < |chrome| && chrome[i].from <= offset < chrome[i].to;
          assert after[i] == chrome[i];
        }
        if InChrome(after, offset) {
          var i :| 0 <= i < |after| && after[i].from <= offset < after[i].to;
          assert i < |chrome| && chrome[i] == after[i];
        }
      } else {
        assert after[|chrome|] == Chrome(limit, to);
      }
    }
  }

  lemma {:induction false} TileBody(w: CellWidth, plan: RowPlan, o: GeometryOptions, owner: RowOwner, top: nat, n: nat,
                                    rows: seq<RowBounds>, chrome: seq<Chrome>)
    requires n <= |plan.rows| && Tiled(rows, chrome, top)
    ensures Tiled(rows + BodyRows(w, plan, o, owner, top, n), chrome, top + BodyHeight(w, plan, o, n))
  {
    if n == 0 {
      assert rows + [] == rows;
    } else {
      TileBody(w, plan, o, owner, top, n - 1, rows, chrome);
      hide Tiled;
      var before, all := BodyRows(w, plan, o, owner, top, n - 1), BodyRows(w, plan, o, owner, top, n);
      TileRow(rows + before, chrome, top + BodyHeight(w, plan, o, n - 1), all[n - 1]);
      assert all == before + [all[n - 1]];
      assert rows + all == rows + before + [all[n - 1]];
    }
  }

  lemma TileFile(w: CellWidth, file: PlannedFile, o: GeometryOptions, index: nat, top: nat,
                 rows: seq<RowBounds>, chrome: seq<Chrome>)
    requires Tiled(rows, chrome, top)
    ensures var section := SectionAt(w, file, o, index, top);
      Tiled(rows + BodyRows(w, file.plan, o, FileOwner(index), section.bodyTop, |file.plan.rows|),
            chrome + [Chrome(top, section.bodyTop)], section.sectionBottom)
  {
    hide Tiled, BodyRows, BodyHeight;
    var section := SectionAt(w, file, o, index, top);
    TileChrome(rows, chrome, top, section.bodyTop);
    TileBody(w, file.plan, o, FileOwner(index), section.bodyTop, |file.plan.rows|, rows,
             chrome + [Chrome(top, section.bodyTop)]);
  }

  lemma {:induction false} TileFiles(w: CellWidth, files: seq<PlannedFile>, o: GeometryOptions, n: nat)
    requires n <= |files|
    ensures Tiled(FileRows(w, files, o, n), SectionChrome(Sections(w, files, o, n)), FilesBottom(w, files, o, n))
  {
    hide BodyHeight, BodyRows, Tiled;
    if n > 0 {
      TileFiles(w, files, o, n - 1);
      var sections := Sections(w, files, o, n);
      assert sections[..|sections| - 1] == Sections(w, files, o, n - 1);
      TileFile(w, files[n - 1], o, n - 1, FilesBottom(w, files, o, n - 1), FileRows(w, files, o, n - 1),
               SectionChrome(Sections(w, files, o, n - 1)));
    } else {
      NothingTiled();
    }
  }

  lemma NothingTiled()
    ensures Tiled([], [], 0)
  {
  }

  /** Separators, headers, rows and trailer cover the document without gap or overlap. */
  lemma GeometryTiles(w: CellWidth, files: seq<PlannedFile>, trailer: Option<RowPlan>, o: GeometryOptions)
    ensures var g := GeometryOf(w, files, trailer, o); Tiled(g.rows, AllChrome(g), g.totalHeight)
  {
    hide FileRows, Sections, FilesBottom, BodyRows, BodyHeight, Tiled, RowIndex, FileIndex, HunkAnchors, SectionChrome;
    var n := |files|;
    TileFiles(w, files, o, n);
    var rows, chrome, top := FileRows(w, files, o, n), SectionChrome(Sections(w, files, o, n)),
      FilesBottom(w, files, o, n);
    if HasTrailer(trailer) {
      TileChrome(rows, chrome, top, top + 2);
      TileBody(w, trailer.value, o, TrailerOwner, top + 2, |trailer.value.rows|, rows, chrome + [Chrome(top, top + 2)]);
    } else {
      assert rows + [] == rows && chrome + [] == chrome;
    }
  }

  // ---- Searches ---------------------------------------------------------------------------

  /** What a geometry must satisfy for its searches: its rows are stacked within the document. */
  ghost predicate Searchable(g: ReviewGeometry) { Stacked(g.rows, g.totalHeight) }

  lemma RowIndexIsFirst(rows: seq<RowBounds>, limit: nat, offset: nat)
    requires Stacked(rows, limit)
    ensures var k := RowIndexAt(rows, offset);
      && (forall i :: 0 <= i < k ==> rows[i].Bottom() <= offset)
      && (forall i :: k <= i < |rows| ==> offset < rows[i].Bottom())
  {
    var p := (row: RowBounds) => row.Bottom() <= offset;
    assert Partitioned(rows, p);
    SearchesAgree(rows, p, 0, |rows|);
    var k := FirstRejected(rows, p, 0);
    assert forall i :: 0 <= i < k ==> p(rows[i]);
    if k < |rows| { assert !p(rows[k]); }
  }

  /** The row found for an offset is the one containing it, else the next one down, else the last. */
  lemma RowAtOffsetIsFirst(g: ReviewGeometry, offset: nat, i: nat)
    requires Searchable(g) && i < |g.rows|
    ensures RowAtOffset(g, offset) == Some(g.rows[i])
      <==> (offset < g.rows[i].Bottom() || i == |g.rows| - 1) && (i > 0 ==> g.rows[i - 1].Bottom() <= offset)
  {
    RowIndexIsFirst(g.rows, g.totalHeight, offset);
    var k := RowIndexAt(g.rows, offset);
    var found := if k < |g.rows| then k else |g.rows| - 1;
    if i < found {
      assert g.rows[i].Bottom() <= g.rows[found].top && g.rows[i] != g.rows[found];
    } else if found < i {
      assert g.rows[found].Bottom() <= g.rows[i].top && g.rows[i] != g.rows[found];
    }
  }

  /** The binary search for the file at an offset agrees with a scan of the sections. */
  lemma FileAtOffsetIsLast(w: CellWidth, files: seq<PlannedFile>, trailer: Option<RowPlan>, o: GeometryOptions,
                           offset: nat)
    requires files != []
    ensures var g := GeometryOf(w, files, trailer, o); var found := FileAtOffset(g, offset);
      && found.Some? && found.value < |g.sections|
      && g.sections[found.value].sectionTop <= offset
      && (found.value + 1 < |g.sections| ==> offset < g.sections[found.value + 1].sectionTop)
  {
    hide BodyHeight, FileRows, RowIndex, FileIndex, HunkAnchors, TrailerRows;
    var g := GeometryOf(w, files, trailer, o);
    var p := (s: FileSection) => s.sectionTop <= offset;
    SectionsAscend(w, files, o, |files|);
    assert Partitioned(g.sections, p);
    SearchesAgree(g.sections, p, 0, |g.sections|);
    var next := FirstRejected(g.sections, p, 0);
    assert p(g.sections[0]);
    if next < |g.sections| { assert !p(g.sections[next]); }
    assert next > 0 && p(g.sections[next - 1]);
  }

  lemma {:induction false} SectionsAscend(w: CellWidth, files: seq<PlannedFile>, o: GeometryOptions, n: nat)
    requires n <= |files|
    ensures var sections := Sections(w, files, o, n);
      && |sections| == n && (n > 0 ==> sections[0].sectionTop == 0)
      && (forall i :: 0 <= i < n ==> sections[i].sectionTop <= FilesBottom(w, files, o, n))
      && (forall i, j :: 0 <= i < j < n ==> sections[i].sectionTop <= sections[j].sectionTop)
  {
    if n > 0 {
      hide BodyHeight;
      SectionsAscend(w, files, o, n - 1);
      assert FilesBottom(w, files, o, n - 1) <= FilesBottom(w, files, o, n);
    }
  }

  /** The visible window holds exactly the rows that meet the overscanned viewport; its parts sum to the total. */
  lemma WindowIsExact(g: ReviewGeometry, scrollTop: nat, viewportHeight: nat, overscan: nat)
    requires Searchable(g)
    ensures var v := WindowOf(g, scrollTop, viewportHeight, overscan);
      var low, high := Monus(scrollTop, overscan), scrollTop + viewportHeight + overscan;
      && v.start <= v.end <= |g.rows|
      && (forall i :: 0 <= i < |g.rows| ==>
            (v.start <= i < v.end <==> low < g.rows[i].Bottom() && g.rows[i].top < high))
      && (v.start < v.end ==>
            && v.topSpacer == g.rows[v.start].top
            && v.topSpacer + (g.rows[v.end - 1].Bottom() - g.rows[v.start].top) + v.bottomSpacer == g.totalHeight)
  {
    if g.rows != [] {
      hide RowIndexAt;
      var low, high := Monus(scrollTop, overscan), scrollTop + viewportHeight + overscan;
      RowIndexIsFirst(g.rows, g.totalHeight, low);
      WindowEnd(g, high);
    }
  }

  /** The rows that start before an offset are those before the found index. */
  lemma WindowEnd(g: ReviewGeometry, high: nat)
    requires Searchable(g)
    ensures var end := PartitionPoint(g.rows, (row: RowBounds) => row.top < high, 0, |g.rows|);
      forall i :: 0 <= i < |g.rows| ==> (i < end <==> g.rows[i].top < high)
  {
    var p := (row: RowBounds) => row.top < high;
    assert Partitioned(g.rows, p);
    SearchesAgree(g.rows, p, 0, |g.rows|);
    var end := FirstRejected(g.rows, p, 0);
    assert forall i :: 0 <= i < end ==> p(g.rows[i]);
    assert end < |g.rows| ==> !p(g.rows[end]);
    assert forall i :: end <= i < |g.rows| ==> !p(g.rows[i]);
  }

  /** Height of the rows a window renders. */
  function Rendered(g: ReviewGeometry, v: VisibleWindow): int {
    if v.start < v.end <= |g.rows| then g.rows[v.end - 1].Bottom() - g.rows[v.start].top else 0
  }

  /** A window that renders no row lies between two rows, on the separator and header of a section. */
  predicate BetweenRows(g: ReviewGeometry, v: VisibleWindow) {
    0 < v.start == v.end <= |g.rows| && g.rows[v.start - 1].Bottom() < v.topSpacer
  }

  /** Row i ends by `low`, and the next one, below some chrome, meets nothing from `low` up to `high`. */
  predicate InGapAfter(g: ReviewGeometry, i: nat, low: nat, high: nat)
    requires i < |g.rows|
  {
    && g.rows[i].Bottom() <= low
    && if i + 1 < |g.rows|
       then low < g.rows[i + 1].Bottom() && high <= g.rows[i + 1].top && g.rows[i].Bottom() < g.rows[i + 1].top
       else g.rows[i].Bottom() < g.totalHeight
  }

  ghost predicate InGap(g: ReviewGeometry, low: nat, high: nat) {
    exists i :: 0 <= i < |g.rows| && InGapAfter(g, i, low, high)
  }

  /**
   * The spacers and the rendered rows make up the whole document unless the overscanned viewport lies in a gap
   * between two rows, or in one below the last.
   */
  lemma SpacersSumIff(g: ReviewGeometry, scrollTop: nat, viewportHeight: nat, overscan: nat)
    requires Searchable(g)
    ensures var v := WindowOf(g, scrollTop, viewportHeight, overscan);
      && (v.topSpacer + Rendered(g, v) + v.bottomSpacer == g.totalHeight <==> !BetweenRows(g, v))
      && (BetweenRows(g, v) <==> InGap(g, Monus(scrollTop, overscan), scrollTop + viewportHeight + overscan))
  {
    hide RowIndexAt, InGap;
    WindowIsExact(g, scrollTop, viewportHeight, overscan);
    BetweenIsGap(g, scrollTop, viewportHeight, overscan);
  }

  lemma BetweenIsGap(g: ReviewGeometry, scrollTop: nat, viewportHeight: nat, overscan: nat)
    requires Searchable(g)
    ensures var v, low, high :=
        WindowOf(g, scrollTop, viewportHeight, overscan), Monus(scrollTop, overscan),
        scrollTop + viewportHeight + overscan;
      BetweenRows(g, v) <==> InGap(g, low, high)
  {
    var low, high := Monus(scrollTop, overscan), scrollTop + viewportHeight + overscan;
    RowIndexIsFirst(g.rows, g.totalHeight, low);
    WindowEnd(g, high);
    var start := RowIndexAt(g.rows, low);
    var end := PartitionPoint(g.rows, (row: RowBounds) => row.top < high, 0, |g.rows|);
    hide RowIndexAt, PartitionPoint, Searchable, InGap;
    OneGap(g, low, high, start);
  }

  /** Only the row before the first one reaching below `low` can have the gap after it. */
  lemma OneGap(g: ReviewGeometry, low: nat, high: nat, start: nat)
    requires start <= |g.rows|
    requires forall i :: 0 <= i < start ==> g.rows[i].Bottom() <= low
    requires forall i :: start <= i < |g.rows| ==> low < g.rows[i].Bottom()
    ensures InGap(g, low, high) <==> start > 0 && InGapAfter(g, start - 1, low, high)
  {
    if InGap(g, low, high) {
      var i :| 0 <= i < |g.rows| && InGapAfter(g, i, low, high);
      assert start == i + 1;
    }
  }

  // ---- Windows are not empty --------------------------------------------------------------

  /** A separator and a header, or the trailer's two lines, are all there is between two rows. */
  const MAX_CHROME: nat := 2

  /** Rows follow each other with at most that between them, down to `limit`. */
  ghost predicate Close(rows: seq<RowBounds>, limit: nat) {
    if rows == [] then limit == 0 else
      && rows[0].top <= MAX_CHROME && rows[|rows| - 1].Bottom() == limit
      && forall i :: 0 < i < |rows| ==> rows[i].top <= rows[i - 1].Bottom() + MAX_CHROME
  }

  lemma CloseRow(rows: seq<RowBounds>, limit: nat, bound: RowBounds)
    requires Close(rows, limit) && bound.top <= limit + MAX_CHROME
    ensures Close(rows + [bound], bound.Bottom())
  {
  }

  lemma {:induction false} CloseBody(w: CellWidth, plan: RowPlan, o: GeometryOptions, owner: RowOwner, top: nat, n: nat,
                                     rows: seq<RowBounds>, limit: nat)
    requires 0 < n <= |plan.rows| && Close(rows, limit) && limit <= top <= limit + MAX_CHROME
    ensures Close(rows + BodyRows(w, plan, o, owner, top, n), top + BodyHeight(w, plan, o, n))
  {
    hide Close, RowHeight;
    var front, all := BodyRows(w, plan, o, owner, top, n - 1), BodyRows(w, plan, o, owner, top, n);
    if n == 1 {
      assert rows + front == rows;
      CloseRow(rows, limit, all[0]);
    } else {
      CloseBody(w, plan, o, owner, top, n - 1, rows, limit);
      CloseRow(rows + front, top + BodyHeight(w, plan, o, n - 1), all[n - 1]);
    }
    assert rows + all == rows + front + [all[n - 1]];
  }

  /** Every planned file has a row. */
  ghost predicate HaveRows(files: seq<PlannedFile>) { forall i :: 0 <= i < |files| ==> files[i].plan.rows != [] }

  lemma {:induction false} FilesAreClose(w: CellWidth, files: seq<PlannedFile>, o: GeometryOptions, n: nat)
    requires n <= |files| && HaveRows(files)
    ensures Close(FileRows(w, files, o, n), FilesBottom(w, files, o, n))
  {
    if n > 0 {
      hide Close, BodyRows, BodyHeight;
      FilesAreClose(w, files, o, n - 1);
      var file, top := files[n - 1], FilesBottom(w, files, o, n - 1);
      CloseBody(w, file.plan, o, FileOwner(n - 1), SectionAt(w, file, o, n - 1, top).bodyTop, |file.plan.rows|,
                FileRows(w, files, o, n - 1), top);
    }
  }

  lemma GeometryIsClose(w: CellWidth, files: seq<PlannedFile>, trailer: Option<RowPlan>, o: GeometryOptions)
    requires HaveRows(files)
    ensures var g := GeometryOf(w, files, trailer, o); Close(g.rows, g.totalHeight)
  {
    hide Close, FileRows, BodyRows, BodyHeight, FilesBottom, Sections, RowIndex, FileIndex, HunkAnchors;
    FilesAreClose(w, files, o, |files|);
    var rows, top := FileRows(w, files, o, |files|), FilesBottom(w, files, o, |files|);
    if HasTrailer(trailer) {
      CloseBody(w, trailer.value, o, TrailerOwner, top + 2, |trailer.value.rows|, rows, top);
    } else {
      assert rows + [] == rows;
    }
  }

  /**
   * In a document laid out from plans that all have rows, the spacers of a window taller than what can lie between
   * two rows always make up the rest: the window holds a row unless it starts at or below the end.
   */
  lemma TallWindowsSum(w: CellWidth, files: seq<PlannedFile>, trailer: Option<RowPlan>, o: GeometryOptions,
                       scrollTop: nat, viewportHeight: nat, overscan: nat)
    requires HaveRows(files)
    requires viewportHeight + overscan > MAX_CHROME
    ensures var g := GeometryOf(w, files, trailer, o); var v := WindowOf(g, scrollTop, viewportHeight, overscan);
      && v.topSpacer + Rendered(g, v) + v.bottomSpacer == g.totalHeight
      && (Monus(scrollTop, overscan) < g.totalHeight ==> v.start < v.end)
  {
    hide GeometryOf, Tiled, RowIndexAt, Rendered, BetweenRows;
    var g := GeometryOf(w, files, trailer, o);
    GeometryIsClose(w, files, trailer, o);
    Stacks(w, files, trailer, o);
    var low, high := Monus(scrollTop, overscan), scrollTop + viewportHeight + overscan;
    if low < g.totalHeight {
      RowIndexIsFirst(g.rows, g.totalHeight, low);
      WindowEnd(g, high);
      var start := RowIndexAt(g.rows, low);
      var last := |g.rows| - 1;
      assert low < g.rows[last].Bottom();
      assert start <= last;
      if start > 0 { assert g.rows[start].top <= g.rows[start - 1].Bottom() + MAX_CHROME; }
      assert g.rows[start].top < high;
      NotBetween(g, scrollTop, viewportHeight, overscan);
    } else {
      PastTheEnd(g, scrollTop, viewportHeight, overscan);
    }
  }

  lemma PastTheEnd(g: ReviewGeometry, scrollTop: nat, viewportHeight: nat, overscan: nat)
    requires Searchable(g) && Close(g.rows, g.totalHeight) && g.totalHeight <= Monus(scrollTop, overscan)
    ensures var v := WindowOf(g, scrollTop, viewportHeight, overscan);
      v.topSpacer + Rendered(g, v) + v.bottomSpacer == g.totalHeight
  {
    hide RowIndexAt;
    RowIndexIsFirst(g.rows, g.totalHeight, Monus(scrollTop, overscan));
    SpacersSumIff(g, scrollTop, viewportHeight, overscan);
  }

  lemma Stacks(w: CellWidth, files: seq<PlannedFile>, trailer: Option<RowPlan>, o: GeometryOptions)
    ensures Searchable(GeometryOf(w, files, trailer, o))
  {
    hide GeometryOf;
    GeometryTiles(w, files, trailer, o);
  }

  lemma NotBetween(g: ReviewGeometry, scrollTop: nat, viewportHeight: nat, overscan: nat)
    requires Searchable(g)
    requires var v := WindowOf(g, scrollTop, viewportHeight, overscan); v.start < v.end
    ensures var v := WindowOf(g, scrollTop, viewportHeight, overscan);
      v.topSpacer + Rendered(g, v) + v.bottomSpacer == g.totalHeight
  {
    hide Searchable;
    SpacersSumIff(g, scrollTop, viewportHeight, overscan);
  }

  lemma {:induction false} BodyStartsAt(w: CellWidth, plan: RowPlan, o: GeometryOptions, owner: RowOwner, top: nat,
                                        n: nat)
    requires 0 < n <= |plan.rows|
    ensures BodyRows(w, plan, o, owner, top, n)[0].top == top
  {
    if n > 1 { BodyStartsAt(w, plan, o, owner, top, n - 1); }
  }

  /** Anything shorter can fall between two rows: scrolled to the header of a second file, it renders nothing. */
  lemma ShortWindowsFallBetween(w: CellWidth, a: PlannedFile, b: PlannedFile, o: GeometryOptions, height: nat)
    requires a.plan.rows != [] && b.plan.rows != [] && !b.compacted && height <= MAX_CHROME
    ensures var g := GeometryOf(w, [a, b], None, o);
      BetweenRows(g, WindowOf(g, FilesBottom(w, [a, b], o, 1), height, 0))
  {
    hide BodyHeight, BodyRows, RowIndex, FileIndex, HunkAnchors, Sections, RowIndexAt, Stacked;
    var files, top := [a, b], FilesBottom(w, [a, b], o, 1);
    var g, first := GeometryOf(w, [a, b], None, o), FileRows(w, [a, b], o, 1);
    var second := BodyRows(w, b.plan, o, FileOwner(1), top + 2, |b.plan.rows|);
    assert g.rows == first + second;
    FilesAreClose(w, files, o, 1);
    assert |first| == |a.plan.rows|;
    BodyStartsAt(w, b.plan, o, FileOwner(1), top + 2, |b.plan.rows|);
    Stacks(w, files, None, o);
    StartsAfter(g, |first|, top, height);
  }

  lemma StartsAfter(g: ReviewGeometry, k: nat, offset: nat, height: nat)
    requires Searchable(g) && 0 < k < |g.rows| && height <= 2
    requires g.rows[k - 1].Bottom() == offset && g.rows[k].top == offset + 2
    ensures BetweenRows(g, WindowOf(g, offset, height, 0))
  {
    hide RowIndexAt;
    RowIndexIsFirst(g.rows, g.totalHeight, offset);
    WindowEnd(g, offset + height);
    assert RowIndexAt(g.rows, offset) == k;
  }

  // ---- Heights ----------------------------------------------------------------------------

  /** A cell and the cells of a line it has for its code. */
  datatype Fitted = Fitted(cell: ReviewCell, width: nat)

  function CellsOf(row: LineRow, digits: nat, o: GeometryOptions): seq<Fitted> {
    match row
    case Stack(_, cell) => [Fitted(cell, StackCodeWidth(o, digits))]
    case Split(_, left, right) =>
      var (leftWidth, rightWidth) := SplitCodeWidths(o, digits);
      [Fitted(left, leftWidth), Fitted(right, rightWidth)]
  }

  /** The code of every cell that has room at all fits on h lines. */
  ghost predicate Holds(w: CellWidth, fitted: seq<Fitted>, h: nat) {
    forall i :: 0 <= i < |fitted| && fitted[i].width > 0 ==>
      Cells(w, SpansText(fitted[i].cell.spans)) <= h * fitted[i].width
  }

  /**
   * The height a row needs: with wrapping, the least that holds the code of each of its cells; without it, and for
   * rows that show no code, one; for a note, its card's.
   */
  ghost predicate Needs(w: CellWidth, row: Row, digits: nat, o: GeometryOptions, h: nat) {
    match row
    case Note(_, card) => h == card.Height()
    case Line(line) =>
      if o.wrapLines
      then h >= 1 && Holds(w, CellsOf(line, digits, o), h)
        && forall less: nat :: 1 <= less < h ==> !Holds(w, CellsOf(line, digits, o), less)
      else h == 1
    case _ => h == 1
  }

  lemma CeilIsLeast(a: nat, b: nat, h: nat)
    requires b > 0
    ensures a <= h * b <==> CeilDiv(a, b) <= h
  {
    var q := CeilDiv(a, b);
    assert q * b <= a + b - 1 < q * b + b;
    if h < q {
      assert (h + 1) * b <= q * b;
      assert h * b + b == (h + 1) * b;
    } else {
      assert q * b <= h * b;
    }
  }

  /** A height of at least one holds a cell exactly when it is at least the cell's. */
  lemma HeightHolds(w: CellWidth, cell: ReviewCell, width: nat, h: nat)
    requires h >= 1
    ensures (width > 0 ==> Cells(w, SpansText(cell.spans)) <= h * width) <==> WrappedHeight(w, cell, width) <= h
  {
    var cells := Cells(w, SpansText(cell.spans));
    if width > 0 {
      CeilIsLeast(Max(cells, 1), width, h);
      assert 1 <= h * width;
    }
  }

  lemma StackHolds(w: CellWidth, f: Fitted, h: nat)
    requires h >= 1
    ensures Holds(w, [f], h) <==> WrappedHeight(w, f.cell, f.width) <= h
  {
    hide WrappedHeight, Cells, SpansText;
    HeightHolds(w, f.cell, f.width, h);
    assert [f][0] == f;
  }

  lemma SplitHolds(w: CellWidth, f: Fitted, g: Fitted, h: nat)
    requires h >= 1
    ensures Holds(w, [f, g], h) <==> WrappedHeight(w, f.cell, f.width) <= h && WrappedHeight(w, g.cell, g.width) <= h
  {
    hide WrappedHeight, Cells, SpansText;
    HeightHolds(w, f.cell, f.width, h);
    HeightHolds(w, g.cell, g.width, h);
    assert [f, g][0] == f && [f, g][1] == g;
  }

  lemma RowNeeds(w: CellWidth, row: Row, digits: nat, o: GeometryOptions)
    ensures Needs(w, row, digits, o, RowHeight(w, row, digits, o))
  {
    if row.Line? && o.wrapLines {
      hide WrappedHeight, Holds, StackCodeWidth, SplitCodeWidths;
      var h, fitted := RowHeight(w, row, digits, o), CellsOf(row.row, digits, o);
      forall k: nat | k >= 1 ensures Holds(w, fitted, k) <==> h <= k {
        match row.row
        case Stack(_, cell) => StackHolds(w, fitted[0], k);
        case Split(_, left, right) => SplitHolds(w, fitted[0], fitted[1], k);
      }
    }
  }

  lemma {:induction false} BodyNeeds(w: CellWidth, plan: RowPlan, o: GeometryOptions, owner: RowOwner, top: nat,
                                     n: nat, i: nat)
    requires i < n <= |plan.rows|
    ensures var bound := BodyRows(w, plan, o, owner, top, n)[i];
      && bound.owner == owner && bound.rowIndex == i && bound.key == plan.rows[i].Key()
      && Needs(w, plan.rows[i], plan.digits, o, bound.height)
  {
    hide RowHeight, Needs;
    if i < n - 1 { BodyNeeds(w, plan, o, owner, top, n - 1, i); } else { RowNeeds(w, plan.rows[i], plan.digits, o); }
  }

  /** The plan a bound's row is from. */
  function PlanOf(files: seq<PlannedFile>, trailer: Option<RowPlan>, owner: RowOwner): Option<RowPlan> {
    match owner
    case FileOwner(i) => if i < |files| then Some(files[i].plan) else None
    case TrailerOwner => trailer
  }

  ghost predicate BoundNeeds(w: CellWidth, files: seq<PlannedFile>, trailer: Option<RowPlan>, o: GeometryOptions,
                             bound: RowBounds)
  {
    var plan := PlanOf(files, trailer, bound.owner);
    && plan.Some? && bound.rowIndex < |plan.value.rows|
    && bound.key == plan.value.rows[bound.rowIndex].Key()
    && Needs(w, plan.value.rows[bound.rowIndex], plan.value.digits, o, bound.height)
  }

  lemma {:induction false} FilesNeed(w: CellWidth, files: seq<PlannedFile>, trailer: Option<RowPlan>,
                                     o: GeometryOptions,
                                     n: nat, i: nat)
    requires n <= |files| && i < |FileRows(w, files, o, n)|
    ensures BoundNeeds(w, files, trailer, o, FileRows(w, files, o, n)[i])
  {
    hide BodyHeight, BodyRows, RowHeight, Needs, FilesBottom, SectionAt;
    var before := FileRows(w, files, o, n - 1);
    if i < |before| {
      FilesNeed(w, files, trailer, o, n - 1, i);
    } else {
      var file := files[n - 1];
      var section := SectionAt(w, file, o, n - 1, FilesBottom(w, files, o, n - 1));
      BodyNeeds(w, file.plan, o, FileOwner(n - 1), section.bodyTop, |file.plan.rows|, i - |before|);
    }
  }

  /** Every bound of a laid-out document has the height its row needs. */
  lemma HeightsAreNeeded(w: CellWidth, files: seq<PlannedFile>, trailer: Option<RowPlan>, o: GeometryOptions, i: nat)
    requires i < |GeometryOf(w, files, trailer, o).rows|
    ensures BoundNeeds(w, files, trailer, o, GeometryOf(w, files, trailer, o).rows[i])
  {
    hide BodyHeight, BodyRows, RowHeight, Needs, FileRows, FilesBottom, Sections, RowIndex, FileIndex, HunkAnchors;
    var rows := FileRows(w, files, o, |files|);
    if i < |rows| {
      FilesNeed(w, files, trailer, o, |files|, i);
    } else {
      BodyNeeds(w, trailer.value, o, TrailerOwner, FilesBottom(w, files, o, |files|) + 2, |trailer.value.rows|,
        i - |rows|);
    }
  }

  /** Gutters, divider, marker and code fill the content width, when there is room for all of them. */
  lemma CodeWidthsFill(o: GeometryOptions, digits: nat)
    ensures var gutter := if o.lineNumbers then 2 * digits + 5 else 2;
      1 + gutter <= o.contentWidth ==> 1 + gutter + StackCodeWidth(o, digits) == o.contentWidth
    ensures var gutter := if o.lineNumbers then digits + 3 else 2;
      var (left, right) := SplitCodeWidths(o, digits);
      2 + 2 * gutter <= o.contentWidth ==>
        1 + gutter + left + 1 + gutter + right == o.contentWidth && left <= right <= left + 1
  {
  }
}
