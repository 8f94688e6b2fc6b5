/** Which lines of a changed block are compared with each other, and that both layouts show the same cells. */
module RowEmphasis {
  import opened Text
  import opened DiffModel
  import opened Sanitize
  import opened Emphasis
  import opened Rows

  function Of<T>(pair: (T, T), side: Side): T { if side == Old then pair.0 else pair.1 }

  function Cell(diff: Differ, dels: seq<DiffLine>, adds: seq<DiffLine>, side: Side, k: nat): ReviewCell
    requires k < |Of((dels, adds), side)|
  {
    CellFrom(Of((dels, adds), side)[k], Of(PairSpans(diff, dels, adds, k), side))
  }

  /** The cells of the first n lines of a side of a block. */
  function CellsOf(diff: Differ, dels: seq<DiffLine>, adds: seq<DiffLine>, side: Side, n: nat): seq<ReviewCell>
    requires n <= |Of((dels, adds), side)|
  {
    if n == 0 then [] else CellsOf(diff, dels, adds, side, n - 1) + [Cell(diff, dels, adds, side, n - 1)]
  }

  lemma {:induction false} CellsAt(diff: Differ, dels: seq<DiffLine>, adds: seq<DiffLine>, side: Side, n: nat)
    requires n <= |Of((dels, adds), side)|
    ensures |CellsOf(diff, dels, adds, side, n)| == n
    ensures forall k :: 0 <= k < n ==> CellsOf(diff, dels, adds, side, n)[k] == Cell(diff, dels, adds, side, k)
  {
    hide Cell;
    if n > 0 {
      CellsAt(diff, dels, adds, side, n - 1);
      CellsPush(diff, dels, adds, side, n);
    }
  }

  lemma CellsPush(diff: Differ, dels: seq<DiffLine>, adds: seq<DiffLine>, side: Side, n: nat)
    requires 0 < n <= |Of((dels, adds), side)|
    ensures CellsOf(diff, dels, adds, side, n)
         == CellsOf(diff, dels, adds, side, n - 1) + [Cell(diff, dels, adds, side, n - 1)]
  {
    hide Cell;
  }

  lemma NoCells(diff: Differ, fileId: string, hunk: nat, dels: seq<DiffLine>, adds: seq<DiffLine>, side: Side)
    ensures SideCells(PairRows(diff, fileId, hunk, dels, adds, 0), side) == [] == CellsOf(diff, dels, adds, side, 0)
    ensures forall block :: SideCells(BlockStackRows(diff, fileId, hunk, block, 0), side) == []
  {
  }

  // ---- Side by side -----------------------------------------------------------------------

  lemma RowCell(diff: Differ, fileId: string, hunk: nat, dels: seq<DiffLine>, adds: seq<DiffLine>, k: nat, side: Side)
    ensures var line := Of((dels, adds), side);
      RowCells(PairRow(diff, fileId, hunk, dels, adds, k), side)
      == if k < |line| then [Cell(diff, dels, adds, side, k)] else []
  {
  }

  lemma {:induction false} PairRowsCells(diff: Differ, fileId: string, hunk: nat, dels: seq<DiffLine>,
                                         adds: seq<DiffLine>, n: nat, side: Side)
    ensures SideCells(PairRows(diff, fileId, hunk, dels, adds, n), side)
         == CellsOf(diff, dels, adds, side, Min(n, |Of((dels, adds), side)|))
  {
    hide PairRow, PairRows, RowCells, SideCells, Cell, CellsOf, Of;
    NoCells(diff, fileId, hunk, dels, adds, side);
    if n > 0 {
      PairRowsPush(diff, fileId, hunk, dels, adds, n);
      if n <= |Of((dels, adds), side)| { CellsPush(diff, dels, adds, side, n); }
      PairRowsCells(diff, fileId, hunk, dels, adds, n - 1, side);
      RowCell(diff, fileId, hunk, dels, adds, n - 1, side);
      SideCellsPush(PairRows(diff, fileId, hunk, dels, adds, n - 1), PairRow(diff, fileId, hunk, dels, adds, n - 1),
        side);
    }
  }

  // ---- Stacked ----------------------------------------------------------------------------

  lemma {:induction false} StackedCells(diff: Differ, fileId: string, hunk: nat, block: seq<DiffLine>, n: nat,
                                        side: Side)
    requires n <= |block| && forall i :: 0 <= i < |block| ==> block[i].kind != Context
    ensures |SideLines(block[..n], side)| <= |Of((SideLines(block, Old), SideLines(block, New)), side)|
    ensures SideCells(BlockStackRows(diff, fileId, hunk, block, n), side)
         == CellsOf(diff, SideLines(block, Old), SideLines(block, New), side, |SideLines(block[..n], side)|)
  {
    var dels, adds := SideLines(block, Old), SideLines(block, New);
    hide *;
    if n == 0 {
      NoneStacked(diff, fileId, hunk, block, side);
    } else {
      StackedCells(diff, fileId, hunk, block, n - 1, side);
      CountGrows(block, n, side);
      StackedRow(diff, fileId, hunk, block, n, side);
      if OnSide(block[n - 1].kind, side) { CellsPush(diff, dels, adds, side, |SideLines(block[..n], side)|); }
    }
  }

  lemma NoneStacked(diff: Differ, fileId: string, hunk: nat, block: seq<DiffLine>, side: Side)
    ensures |SideLines(block[..0], side)| == 0 <= |Of((SideLines(block, Old), SideLines(block, New)), side)|
    ensures SideCells(BlockStackRows(diff, fileId, hunk, block, 0), side)
         == CellsOf(diff, SideLines(block, Old), SideLines(block, New), side, 0)
  {
    assert block[..0] == [];
    NoCells(diff, fileId, hunk, [], [], side);
  }

  lemma StackedRow(diff: Differ, fileId: string, hunk: nat, block: seq<DiffLine>, n: nat, side: Side)
    requires 0 < n <= |block| && block[n - 1].kind != Context
    requires OnSide(block[n - 1].kind, side) ==>
      |SideLines(block[..n - 1], side)| < |SideLines(block, side)|
      && SideLines(block, side)[|SideLines(block[..n - 1], side)|] == block[n - 1]
    ensures SideCells(BlockStackRows(diff, fileId, hunk, block, n), side)
         == SideCells(BlockStackRows(diff, fileId, hunk, block, n - 1), side)
           + if OnSide(block[n - 1].kind, side)
             then [Cell(diff, SideLines(block, Old), SideLines(block, New), side, |SideLines(block[..n - 1], side)|)]
             else []
  {
    hide SideLines, BlockStackRows, SideCells, RowCells, StackRow, BlockSpans, Cell, OnSide;
    StackedCell(diff, fileId, hunk, block, n - 1, side);
    BlockStackPush(diff, fileId, hunk, block, n);
    SideCellsPush(BlockStackRows(diff, fileId, hunk, block, n - 1),
      StackRow(fileId, hunk, block[n - 1], BlockSpans(diff, block, n - 1)), side);
  }

  lemma CountGrows(block: seq<DiffLine>, n: nat, side: Side)
    requires 0 < n <= |block|
    ensures var before := |SideLines(block[..n - 1], side)|;
      var all := Of((SideLines(block, Old), SideLines(block, New)), side);
      && all == SideLines(block, side)
      && |SideLines(block[..n], side)| == before + (if OnSide(block[n - 1].kind, side) then 1 else 0)
      && (OnSide(block[n - 1].kind, side) ==> before < |all| && all[before] == block[n - 1])
  {
    SideStep(block, n - 1, side);
    CountsBelow(block, n - 1, block[n - 1].kind);
    hide SideLines;
  }

  lemma StackedCell(diff: Differ, fileId: string, hunk: nat, block: seq<DiffLine>, i: nat, side: Side)
    requires i < |block| && block[i].kind != Context
    requires OnSide(block[i].kind, side) ==>
      |SideLines(block[..i], side)| < |SideLines(block, side)|
      && SideLines(block, side)[|SideLines(block[..i], side)|] == block[i]
    ensures RowCells(StackRow(fileId, hunk, block[i], BlockSpans(diff, block, i)), side)
      == if OnSide(block[i].kind, side)
         then [Cell(diff, SideLines(block, Old), SideLines(block, New), side, |SideLines(block[..i], side)|)] else []
  {
    hide SideLines, PairSpans;
  }

  // ---- Both -------------------------------------------------------------------------------

  lemma BlockAlike(diff: Differ, fileId: string, hunk: nat, block: seq<DiffLine>, side: Side)
    requires forall i :: 0 <= i < |block| ==> block[i].kind != Context
    ensures SideCells(BlockRows(diff, fileId, hunk, block), side)
         == SideCells(BlockStackRows(diff, fileId, hunk, block, |block|), side)
         == CellsOf(diff, SideLines(block, Old), SideLines(block, New), side, |SideLines(block, side)|)
  {
    hide SideCells, CellsOf, PairRows, BlockStackRows, SideLines;
    var dels, adds := SideLines(block, Old), SideLines(block, New);
    PairRowsCells(diff, fileId, hunk, dels, adds, Max(|dels|, |adds|), side);
    StackedCells(diff, fileId, hunk, block, |block|, side);
    assert block[..|block|] == block;
  }

  lemma ContextAlike(fileId: string, hunk: nat, line: DiffLine, side: Side)
    requires line.kind == Context
    ensures SideCells([ContextRow(fileId, hunk, line)], side)
         == SideCells([StackRow(fileId, hunk, line, PlainText(SanitizeLine(line.content)))], side)
  {
    var split, stack := ContextRow(fileId, hunk, line),
      StackRow(fileId, hunk, line, PlainText(SanitizeLine(line.content)));
    assert [split][..0] == [] && [stack][..0] == [];
  }

  /** Both layouts show a side of a hunk in the very same cells, emphasis and all. */
  lemma {:induction false} CellsAgree(diff: Differ, fileId: string, hunk: nat, lines: seq<DiffLine>, at: nat,
                                      side: Side)
    requires at <= |lines|
    ensures SideCells(SplitRows(diff, fileId, hunk, lines, at), side)
         == SideCells(StackRows(diff, fileId, hunk, lines, at), side)
    decreases |lines| - at
  {
    hide SplitRows, StackRows, BlockRows, BlockStackRows, ContextRow, StackRow, SideCells, PlainText, SanitizeLine;
    Unfolded(diff, fileId, hunk, lines, at);
    if at < |lines| {
      var end := FirstBlock(lines, at);
      CellsAgree(diff, fileId, hunk, lines, end, side);
      var split, stack := SplitRows(diff, fileId, hunk, lines, end), StackRows(diff, fileId, hunk, lines, end);
      if lines[at].kind == Context {
        ContextAlike(fileId, hunk, lines[at], side);
        SideCellsConcat([ContextRow(fileId, hunk, lines[at])], split, side);
        SideCellsConcat([StackRow(fileId, hunk, lines[at], PlainText(SanitizeLine(lines[at].content)))], stack, side);
      } else {
        var block := lines[at..end];
        BlockAlike(diff, fileId, hunk, block, side);
        SideCellsConcat(BlockRows(diff, fileId, hunk, block), split, side);
        SideCellsConcat(BlockStackRows(diff, fileId, hunk, block, |block|), stack, side);
      }
    }
  }

  lemma Unfolded(diff: Differ, fileId: string, hunk: nat, lines: seq<DiffLine>, at: nat)
    requires at <= |lines|
    ensures at == |lines| ==>
      SplitRows(diff, fileId, hunk, lines, at) == [] == StackRows(diff, fileId, hunk, lines, at)
    ensures at < |lines| ==>
      var end := FirstBlock(lines, at);
      var block := lines[at..end];
      SplitRows(diff, fileId, hunk, lines, at)
      == (if lines[at].kind == Context then [ContextRow(fileId, hunk, lines[at])]
          else BlockRows(diff, fileId, hunk, block)) + SplitRows(diff, fileId, hunk, lines, end)
      && StackRows(diff, fileId, hunk, lines, at)
      == (if lines[at].kind == Context
          then [StackRow(fileId, hunk, lines[at], PlainText(SanitizeLine(lines[at].content)))]
          else BlockStackRows(diff, fileId, hunk, block, |block|)) + StackRows(diff, fileId, hunk, lines, end)
  {
    hide BlockRows, BlockStackRows, ContextRow, StackRow, PlainText, SanitizeLine;
  }

  /** Line k of a side is compared with line k of the other, and wholly emphasized if there is none. */
  ghost predicate IsCompared(diff: Differ, dels: seq<DiffLine>, adds: seq<DiffLine>, side: Side, k: nat,
                             cell: ReviewCell) {
    var own := Of((dels, adds), side);
    k < |own| &&
    if k < |dels| && k < |adds| then
      cell.spans == Of(EmphasizedPair(diff, SanitizeLine(dels[k].content), SanitizeLine(adds[k].content)), side)
    else
      SpansText(cell.spans) == SanitizeLine(own[k].content)
      && Flags(cell.spans) == Same(true, |SanitizeLine(own[k].content)|)
  }

  /** In a changed block the k-th removed line is compared with the k-th added one, in either layout. */
  lemma BlockIsCompared(diff: Differ, fileId: string, hunk: nat, block: seq<DiffLine>, side: Side, k: nat)
    requires forall i :: 0 <= i < |block| ==> block[i].kind != Context
    requires k < |SideLines(block, side)|
    ensures var split := SideCells(BlockRows(diff, fileId, hunk, block), side);
      var stack := SideCells(BlockStackRows(diff, fileId, hunk, block, |block|), side);
      && |split| == |stack| == |SideLines(block, side)| && split[k] == stack[k]
      && IsCompared(diff, SideLines(block, Old), SideLines(block, New), side, k, split[k])
  {
    BlockAlike(diff, fileId, hunk, block, side);
    CellsAt(diff, SideLines(block, Old), SideLines(block, New), side, |SideLines(block, side)|);
    CellIsCompared(diff, SideLines(block, Old), SideLines(block, New), side, k);
    hide BlockRows, BlockStackRows, SideCells, CellsOf, IsCompared, Cell;
  }

  lemma CellIsCompared(diff: Differ, dels: seq<DiffLine>, adds: seq<DiffLine>, side: Side, k: nat)
    requires k < |Of((dels, adds), side)|
    ensures IsCompared(diff, dels, adds, side, k, Cell(diff, dels, adds, side, k))
  {
    hide EmphasizedPair, SanitizeLine;
    WhollyEmphasized(SanitizeLine(Of((dels, adds), side)[k].content));
    hide EmphasizedText;
  }

  lemma WhollyEmphasized(text: string)
    ensures SpansText(EmphasizedText(text)) == text && Flags(EmphasizedText(text)) == Same(true, |text|)
  {
    if text != [] {
      var spans := [Span(text, true)];
      assert spans[..0] == [];
    }
  }
}
