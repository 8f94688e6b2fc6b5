/** Note cards: building them, finding the row each one hangs under, and weaving them into a plan. */
module Notes {
  import opened Text
  import opened DiffModel
  import opened Context
  import opened Rows
  import opened Plan
  import opened Wrapping

  // ---- Cards ------------------------------------------------------------------------------

  /** Text columns inside a note box; explicit layouts only, as rows are planned. */
  function BoxContentWidth(layout: Layout, side: Option<Side>, width: nat): (columns: nat)
    ensures 1 <= columns && (width > 4 ==> columns < width)
  {
    var canDock := layout == SplitLayout && width >= 84;
    var preferred :=
      if canDock && side == Some(Old) then width / 2
      else if canDock && side == Some(New) then width - width / 2
      else Max(Monus(width, 4), 34);
    var maximum := Max(Monus(width, 4), 1);
    var minimum := Min(28, maximum);
    Max(Monus(Min(Max(preferred, minimum), maximum), 4), 1)
  }

  function LineTexts(lines: seq<WrappedLine>): (texts: seq<string>)
    ensures |texts| == |lines|
  {
    seq(|lines|, i requires 0 <= i < |lines| => lines[i].text)
  }

  function WrappedTexts(w: CellWidth, text: string, columns: nat): seq<string> {
    LineTexts(RenderAll(WrapText(w, columns, text)))
  }

  function TextCard(w: CellWidth, id: string, target: NoteTarget, text: string, layout: Layout, width: nat): NoteCard {
    NoteCard(id, target, WrappedTexts(w, text, BoxContentWidth(layout, target.anchorSide, width)), None)
  }

  /** A draft shows its text with a caret, or a placeholder with the caret at the start. */
  function DraftCard(w: CellWidth, id: string, target: NoteTarget, text: string, caret: nat, placeholder: string,
                     layout: Layout, width: nat): NoteCard
  {
    var columns := BoxContentWidth(layout, target.anchorSide, width);
    if text == [] then NoteCard(id, target, WrappedTexts(w, placeholder, columns), Some((0, 0)))
    else NoteCard(id, target, WrappedTexts(w, text, columns),
                  Some(CaretCell(w, RenderAll(WrapText(w, columns, text)), caret)))
  }

  lemma {:induction false} CaretInLines(w: CellWidth, lines: seq<WrappedLine>, row: nat, caret: nat)
    requires row < |lines|
    ensures var (r, column) := CaretFrom(w, lines, row, caret);
      row <= r < |lines| && column <= Cells(w, lines[r].text)
    decreases |lines| - row
  {
    var position := FirstAtLeast(lines[row].sources, caret, 0);
    var text := lines[row].text;
    assert text == Take(text, position) + text[|Take(text, position)|..];
    CellsConcat(w, Take(text, position), text[|Take(text, position)|..]);
    if row + 1 < |lines| { CaretInLines(w, lines, row + 1, caret); }
  }

  /** The caret of a draft card is a cell of the card, however the text wraps. */
  lemma DraftCaretInCard(w: CellWidth, id: string, target: NoteTarget, text: string, caret: nat, placeholder: string,
                         layout: Layout, width: nat)
    ensures var card := DraftCard(w, id, target, text, caret, placeholder, layout, width);
      card.caret.Some? && card.caret.value.0 < |card.lines|
      && card.caret.value.1 <= Cells(w, card.lines[card.caret.value.0])
  {
    hide WrapFrom, BoxContentWidth;
    var columns := BoxContentWidth(layout, target.anchorSide, width);
    if text != [] { CaretInLines(w, RenderAll(WrapText(w, columns, text)), 0, caret); }
  }

  // ---- Anchoring --------------------------------------------------------------------------

  predicate AnchorsExactly(key: RowKey, target: NoteTarget) {
    && key.hunkIndex == target.hunkIndex
    && target.anchorSide.Some?
    && (if target.anchorSide == Some(New) then key.newLine else key.oldLine) == target.anchorLine
  }

  function FirstExact(rows: seq<Row>, target: NoteTarget, from: nat): (i: nat)
    requires from <= |rows|
    ensures from <= i <= |rows|
    ensures forall j :: from <= j < i ==> !AnchorsExactly(rows[j].Key(), target)
    ensures i < |rows| ==> AnchorsExactly(rows[i].Key(), target)
    decreases |rows| - from
  {
    if from == |rows| || AnchorsExactly(rows[from].Key(), target) then from else FirstExact(rows, target, from + 1)
  }

  function FirstOfHunk(rows: seq<Row>, hunk: Option<nat>, from: nat): (i: nat)
    requires from <= |rows|
    ensures from <= i <= |rows|
    ensures forall j :: from <= j < i ==> rows[j].Key().hunkIndex != hunk
    ensures i < |rows| ==> rows[i].Key().hunkIndex == hunk
    decreases |rows| - from
  {
    if from == |rows| || rows[from].Key().hunkIndex == hunk then from else FirstOfHunk(rows, hunk, from + 1)
  }

  function NoteAnchorIndex(rows: seq<Row>, target: NoteTarget): nat {
    if FirstExact(rows, target, 0) < |rows| then FirstExact(rows, target, 0)
    else if FirstOfHunk(rows, target.hunkIndex, 0) < |rows| then FirstOfHunk(rows, target.hunkIndex, 0)
    else 0
  }

  // ---- Weaving ----------------------------------------------------------------------------

  function NoteRow(fileId: string, card: NoteCard): Row {
    Note(RowKey(fileId, card.target.hunkIndex, NoteKind,
                if card.target.oldRange.Some? then Some(card.target.oldRange.value.start) else None,
                if card.target.newRange.Some? then Some(card.target.newRange.value.start) else None,
                Some(card.id)), card)
  }

  function NoteRows(fileId: string, cards: seq<NoteCard>): seq<Row> {
    if cards == [] then [] else NoteRows(fileId, cards[..|cards| - 1]) + [NoteRow(fileId, cards[|cards| - 1])]
  }

  /** The cards hung under row i, in the order they were given. */
  function CardsAt(rows: seq<Row>, cards: seq<NoteCard>, i: nat): seq<NoteCard> {
    if cards == [] then [] else
      var last := cards[|cards| - 1];
      CardsAt(rows, cards[..|cards| - 1], i) + (if NoteAnchorIndex(rows, last.target) == i then [last] else [])
  }

  function Woven(fileId: string, rows: seq<Row>, cards: seq<NoteCard>, n: nat): seq<Row>
    requires n <= |rows|
  {
    if n == 0 then []
    else Woven(fileId, rows, cards, n - 1) + [rows[n - 1]] + NoteRows(fileId, CardsAt(rows, cards, n - 1))
  }

  function WithNotes(fileId: string, plan: RowPlan, fileLevel: seq<NoteCard>, cards: seq<NoteCard>): RowPlan {
    if plan.rows == [] then plan
    else plan.(rows := NoteRows(fileId, fileLevel) + Woven(fileId, plan.rows, cards, |plan.rows|))
  }

  lemma NoteRowsPush(fileId: string, cards: seq<NoteCard>, card: NoteCard)
    ensures NoteRows(fileId, cards + [card]) == NoteRows(fileId, cards) + [NoteRow(fileId, card)]
  {
    assert (cards + [card])[..|cards|] == cards;
  }

  lemma CardsAtStep(rows: seq<Row>, cards: seq<NoteCard>, n: nat, i: nat)
    requires n < |cards|
    ensures CardsAt(rows, cards[..n + 1], i) ==
      (if NoteAnchorIndex(rows, cards[n].target) == i then CardsAt(rows, cards[..n], i) + [cards[n]]
        else CardsAt(rows, cards[..n], i))
  {
    hide NoteAnchorIndex;
    assert cards[..n + 1][..n] == cards[..n];
  }

  method AppendCards(fileId: string, rows: seq<Row>, cards: seq<NoteCard>, index: nat, before: seq<Row>)
    returns (output: seq<Row>)
    ensures output == before + NoteRows(fileId, CardsAt(rows, cards, index))
  {
    output := before;
    for i := 0 to |cards|
      invariant output == before + NoteRows(fileId, CardsAt(rows, cards[..i], index))
    {
      hide NoteAnchorIndex, NoteRows, CardsAt;
      var shown := CardsAt(rows, cards[..i], index);
      CardsAtStep(rows, cards, i, index);
      if NoteAnchorIndex(rows, cards[i].target) == index {
        NoteRowsPush(fileId, shown, cards[i]);
        Assoc(before, NoteRows(fileId, shown), [NoteRow(fileId, cards[i])]);
        output := output + [NoteRow(fileId, cards[i])];
      }
    }
    assert cards[..|cards|] == cards;
  }

  method WeaveNotes(fileId: string, plan: RowPlan, fileLevel: seq<NoteCard>, cards: seq<NoteCard>)
    returns (woven: RowPlan)
    ensures woven == WithNotes(fileId, plan, fileLevel, cards)
  {
    if plan.rows == [] {
      return plan;
    }
    var rows := [];
    for i := 0 to |fileLevel|
      invariant rows == NoteRows(fileId, fileLevel[..i])
    {
      assert fileLevel[..i + 1][..i] == fileLevel[..i];
      rows := rows + [NoteRow(fileId, fileLevel[i])];
    }
    assert fileLevel[..|fileLevel|] == fileLevel;
    ghost var top := rows;
    for index := 0 to |plan.rows|
      invariant rows == top + Woven(fileId, plan.rows, cards, index)
    {
      hide NoteRows, CardsAt;
      rows := rows + [plan.rows[index]];
      rows := AppendCards(fileId, plan.rows, cards, index, rows);
    }
    woven := plan.(rows := rows);
  }

  // ---- Nothing is lost, nothing is moved --------------------------------------------------

  function WithoutNotes(rows: seq<Row>): seq<Row> {
    if rows == [] then [] else
      var last := rows[|rows| - 1];
      WithoutNotes(rows[..|rows| - 1]) + (if last.Note? then [] else [last])
  }

  function ShownCards(rows: seq<Row>): seq<NoteCard> {
    if rows == [] then [] else
      var last := rows[|rows| - 1];
      ShownCards(rows[..|rows| - 1]) + (if last.Note? then [last.card] else [])
  }

  lemma NotesPush(rows: seq<Row>, row: Row)
    ensures WithoutNotes(rows + [row]) == WithoutNotes(rows) + (if row.Note? then [] else [row])
    ensures ShownCards(rows + [row]) == ShownCards(rows) + (if row.Note? then [row.card] else [])
  {
    assert (rows + [row])[..|rows|] == rows;
  }

  lemma {:induction false} NotesConcat(a: seq<Row>, b: seq<Row>)
    ensures WithoutNotes(a + b) == WithoutNotes(a) + WithoutNotes(b)
    ensures ShownCards(a + b) == ShownCards(a) + ShownCards(b)
  {
    if b == [] {
      assert a + b == a;
    } else {
      hide WithoutNotes, ShownCards;
      var front, last := b[..|b| - 1], b[|b| - 1];
      NotesConcat(a, front);
      NotesPush(a + front, last);
      NotesPush(front, last);
      Assoc(a, front, [last]);
      assert front + [last] == b;
      Assoc(WithoutNotes(a), WithoutNotes(front), if last.Note? then [] else [last]);
      Assoc(ShownCards(a), ShownCards(front), if last.Note? then [last.card] else []);
    }
  }

  lemma {:induction false} NoteRowsShow(fileId: string, cards: seq<NoteCard>)
    ensures WithoutNotes(NoteRows(fileId, cards)) == [] && ShownCards(NoteRows(fileId, cards)) == cards
  {
    if cards != [] {
      var front := cards[..|cards| - 1];
      NoteRowsShow(fileId, front);
      assert NoteRows(fileId, cards)[..|NoteRows(fileId, cards)| - 1] == NoteRows(fileId, front);
    }
  }

  /** The cards under the first n rows, row by row. */
  function Collected(rows: seq<Row>, cards: seq<NoteCard>, n: nat): seq<NoteCard> {
    if n == 0 then [] else Collected(rows, cards, n - 1) + CardsAt(rows, cards, n - 1)
  }

  /** One more row with its cards: the row joins the rows, the cards join the cards. */
  lemma WovenStep(fileId: string, before: seq<Row>, row: Row, cards: seq<NoteCard>)
    requires !row.Note?
    ensures WithoutNotes(before + [row] + NoteRows(fileId, cards)) == WithoutNotes(before) + [row]
    ensures ShownCards(before + [row] + NoteRows(fileId, cards)) == ShownCards(before) + cards
  {
    hide WithoutNotes, ShownCards, NoteRows;
    NotesConcat(before + [row], NoteRows(fileId, cards));
    NotesPush(before, row);
    NoteRowsShow(fileId, cards);
    assert WithoutNotes(before) + [row] + [] == WithoutNotes(before) + [row];
    assert ShownCards(before) + [] == ShownCards(before);
  }

  lemma {:induction false} WovenShows(fileId: string, rows: seq<Row>, cards: seq<NoteCard>, n: nat)
    requires n <= |rows| && forall i :: 0 <= i < |rows| ==> !rows[i].Note?
    ensures WithoutNotes(Woven(fileId, rows, cards, n)) == rows[..n]
    ensures ShownCards(Woven(fileId, rows, cards, n)) == Collected(rows, cards, n)
  {
    if n > 0 {
      hide WithoutNotes, ShownCards, NoteRows, CardsAt;
      WovenShows(fileId, rows, cards, n - 1);
      WovenStep(fileId, Woven(fileId, rows, cards, n - 1), rows[n - 1], CardsAt(rows, cards, n - 1));
      assert rows[..n] == rows[..n - 1] + [rows[n - 1]];
    }
  }

  lemma Regroup(a: multiset<NoteCard>, b: multiset<NoteCard>, x: multiset<NoteCard>, y: multiset<NoteCard>)
    ensures (a + x) + (b + y) == (a + b) + (x + y)
  {
  }

  lemma {:induction false} CollectedGrows(rows: seq<Row>, cards: seq<NoteCard>, card: NoteCard, n: nat)
    ensures multiset(Collected(rows, cards + [card], n))
         == multiset(Collected(rows, cards, n))
          + (if NoteAnchorIndex(rows, card.target) < n then multiset{card} else multiset{})
  {
    hide *;
    if n == 0 {
      NoneCollected(rows, cards);
      NoneCollected(rows, cards + [card]);
    } else {
      var at, all := NoteAnchorIndex(rows, card.target), cards + [card];
      var x, y := if at < n - 1 then multiset{card} else multiset{}, if at == n - 1 then multiset{card} else multiset{};
      CollectedGrows(rows, cards, card, n - 1);
      CardsAtPush(rows, cards, card, n - 1);
      CollectedUnfolds(rows, cards, n);
      CollectedUnfolds(rows, all, n);
      Regroup(multiset(Collected(rows, cards, n - 1)), multiset(CardsAt(rows, cards, n - 1)), x, y);
      assert x + y == if at < n then multiset{card} else multiset{};
    }
  }

  lemma NoneCollected(rows: seq<Row>, cards: seq<NoteCard>)
    ensures multiset(Collected(rows, cards, 0)) == multiset{}
  {
  }

  lemma CollectedUnfolds(rows: seq<Row>, cards: seq<NoteCard>, n: nat)
    requires n > 0
    ensures multiset(Collected(rows, cards, n)) == multiset(Collected(rows, cards, n - 1))
      + multiset(CardsAt(rows, cards, n - 1))
  {
    hide CardsAt;
  }

  lemma CardsAtPush(rows: seq<Row>, cards: seq<NoteCard>, card: NoteCard, i: nat)
    ensures multiset(CardsAt(rows, cards + [card], i))
         == multiset(CardsAt(rows, cards, i))
           + (if NoteAnchorIndex(rows, card.target) == i then multiset{card} else multiset{})
  {
    hide NoteAnchorIndex;
    assert (cards + [card])[..|cards|] == cards;
  }

  lemma {:induction false} CollectedAll(rows: seq<Row>, cards: seq<NoteCard>)
    requires rows != []
    ensures multiset(Collected(rows, cards, |rows|)) == multiset(cards)
  {
    if cards == [] {
      NothingCollected(rows, |rows|);
    } else {
      var front, last := cards[..|cards| - 1], cards[|cards| - 1];
      assert cards == front + [last];
      CollectedAll(rows, front);
      CollectedGrows(rows, front, last, |rows|);
    }
  }

  lemma {:induction false} NothingCollected(rows: seq<Row>, n: nat)
    ensures Collected(rows, [], n) == []
  {
    if n > 0 { NothingCollected(rows, n - 1); }
  }

  /** Weaving notes in removes and reorders no row of the plan, and shows every card exactly once. */
  lemma WeavingIsConservative(fileId: string, plan: RowPlan, fileLevel: seq<NoteCard>, cards: seq<NoteCard>)
    requires plan.rows != [] && forall i :: 0 <= i < |plan.rows| ==> !plan.rows[i].Note?
    ensures var woven := WithNotes(fileId, plan, fileLevel, cards);
      && WithoutNotes(woven.rows) == plan.rows
      && multiset(ShownCards(woven.rows)) == multiset(fileLevel) + multiset(cards)
      && woven.hunkAnchors == plan.hunkAnchors
  {
    var top, below := NoteRows(fileId, fileLevel), Woven(fileId, plan.rows, cards, |plan.rows|);
    NotesConcat(top, below);
    NoteRowsShow(fileId, fileLevel);
    WovenShows(fileId, plan.rows, cards, |plan.rows|);
    CollectedAll(plan.rows, cards);
    assert plan.rows[..|plan.rows|] == plan.rows;
  }
}
