/** Where each note is shown: directly under the row it is anchored to, in the order the notes were given. */
module NoteProofs {
  import opened Text
  import opened DiffModel
  import opened Emphasis
  import opened Sanitize
  import opened Context
  import opened Rows
  import opened Plan
  import opened Wrapping
  import opened WrappingProofs
  import opened Notes
  import opened ControllerModel

  // ---- The row a note hangs under ---------------------------------------------------------

  ghost predicate HasExact(rows: seq<Row>, target: NoteTarget) {
    exists j :: 0 <= j < |rows| && AnchorsExactly(rows[j].Key(), target)
  }

  ghost predicate HasHunk(rows: seq<Row>, target: NoteTarget) {
    exists j :: 0 <= j < |rows| && rows[j].Key().hunkIndex == target.hunkIndex
  }

  /** Row i is the first with the note's line, else the first of its hunk, else the first of all. */
  ghost predicate HangsUnder(rows: seq<Row>, target: NoteTarget, i: nat) {
    i < |rows| &&
    if HasExact(rows, target) then
      AnchorsExactly(rows[i].Key(), target) && forall j :: 0 <= j < i ==> !AnchorsExactly(rows[j].Key(), target)
    else if HasHunk(rows, target) then
      rows[i].Key().hunkIndex == target.hunkIndex
      && forall j :: 0 <= j < i ==> rows[j].Key().hunkIndex != target.hunkIndex
    else i == 0
  }

  lemma AnchorIsHung(rows: seq<Row>, target: NoteTarget, i: nat)
    requires rows != []
    ensures NoteAnchorIndex(rows, target) == i <==> HangsUnder(rows, target, i)
  {
  }

  /** Which of the cards these are, in the same order: those hung under row i. */
  ghost predicate Picked(rows: seq<Row>, cards: seq<NoteCard>, i: nat, shown: seq<NoteCard>, picks: seq<nat>) {
    && |picks| == |shown|
    && (forall k :: 0 <= k < |picks| ==> picks[k] < |cards| && shown[k] == cards[picks[k]])
    && (forall k, l :: 0 <= k < l < |picks| ==> picks[k] < picks[l])
    && (forall j :: 0 <= j < |cards| ==> (j in picks <==> HangsUnder(rows, cards[j].target, i)))
  }

  lemma {:induction false} CardsArePicked(rows: seq<Row>, cards: seq<NoteCard>, i: nat) returns (picks: seq<nat>)
    requires rows != []
    ensures Picked(rows, cards, i, CardsAt(rows, cards, i), picks)
  {
    picks := [];
    if cards != [] {
      hide NoteAnchorIndex, HangsUnder, Picked;
      var front, last := cards[..|cards| - 1], cards[|cards| - 1];
      picks := CardsArePicked(rows, front, i);
      AnchorIsHung(rows, last.target, i);
      OneMorePicked(rows, front, last, i, CardsAt(rows, front, i), picks);
      assert front + [last] == cards;
      if NoteAnchorIndex(rows, last.target) == i { picks := picks + [|front|]; }
    } else {
      NonePicked(rows, i);
    }
  }

  lemma NonePicked(rows: seq<Row>, i: nat)
    ensures Picked(rows, [], i, [], [])
  {
  }

  lemma OneMorePicked(rows: seq<Row>, front: seq<NoteCard>, last: NoteCard, i: nat, shown: seq<NoteCard>,
                      picks: seq<nat>)
    requires Picked(rows, front, i, shown, picks)
    ensures if HangsUnder(rows, last.target, i) then Picked(rows, front + [last], i, shown + [last], picks + [|front|])
            else Picked(rows, front + [last], i, shown, picks)
  {
    hide HangsUnder;
  }

  lemma {:induction false} WovenSplit(fileId: string, rows: seq<Row>, cards: seq<NoteCard>, i: nat, n: nat)
    returns (before: seq<Row>, after: seq<Row>)
    requires i < n <= |rows|
    ensures Woven(fileId, rows, cards, n)
         == before + [rows[i]] + NoteRows(fileId, CardsAt(rows, cards, i)) + after
    ensures before == Woven(fileId, rows, cards, i) && (i + 1 < n ==> after != [] && after[0] == rows[i + 1])
    ensures i + 1 == n ==> after == []
  {
    hide NoteRows, CardsAt;
    var tail := [rows[n - 1]] + NoteRows(fileId, CardsAt(rows, cards, n - 1));
    if i + 1 == n {
      before, after := Woven(fileId, rows, cards, i), [];
    } else {
      before, after := WovenSplit(fileId, rows, cards, i, n - 1);
      var middle := before + [rows[i]] + NoteRows(fileId, CardsAt(rows, cards, i));
      assert middle + after + [rows[n - 1]] + NoteRows(fileId, CardsAt(rows, cards, n - 1)) == middle + (after + tail);
      after := after + tail;
    }
  }

  /**
   * In a plan with its notes, the file-level cards come first; then under each row come the cards that hang under it,
   * in the order given, and after them the next row of the plan.
   */
  lemma CardsHang(fileId: string, plan: RowPlan, fileLevel: seq<NoteCard>, cards: seq<NoteCard>, i: nat)
    returns (before: seq<Row>, shown: seq<NoteCard>, after: seq<Row>, picks: seq<nat>)
    requires i < |plan.rows|
    ensures WithNotes(fileId, plan, fileLevel, cards).rows
         == NoteRows(fileId, fileLevel) + before + [plan.rows[i]] + NoteRows(fileId, shown) + after
    ensures Picked(plan.rows, cards, i, shown, picks)
    ensures if i + 1 < |plan.rows| then after != [] && after[0] == plan.rows[i + 1] else after == []
    ensures i == 0 ==> before == []
  {
    hide NoteRows, CardsAt, Picked;
    before, after := WovenSplit(fileId, plan.rows, cards, i, |plan.rows|);
    shown := CardsAt(plan.rows, cards, i);
    picks := CardsArePicked(plan.rows, cards, i);
    var notes := NoteRows(fileId, shown);
    assert NoteRows(fileId, fileLevel) + (before + [plan.rows[i]] + notes + after)
        == NoteRows(fileId, fileLevel) + before + [plan.rows[i]] + notes + after;
  }

  // ---- Which notes are shown --------------------------------------------------------------

  /** A note that can show in a file's plan: it is on that file, and not an agent's while those are hidden. */
  predicate CanShow(inputs: Inputs, file: DiffFile, note: ReviewNote) {
    note.target.fileId == file.id && (inputs.options.agentNotes || !note.gated)
  }

  function Cards(env: Env, shape: Shape, notes: seq<ReviewNote>): (cards: multiset<NoteCard>) {
    if notes == [] then multiset{}
    else Cards(env, shape, notes[..|notes| - 1]) + multiset{CardOf(env, notes[|notes| - 1], shape)}
  }

  /** The notes of a file that can show. */
  function Showable(inputs: Inputs, file: DiffFile, notes: seq<ReviewNote>): seq<ReviewNote> {
    if notes == [] then [] else
      var last := notes[|notes| - 1];
      Showable(inputs, file, notes[..|notes| - 1]) + (if CanShow(inputs, file, last) then [last] else [])
  }

  lemma CardsPush(env: Env, shape: Shape, notes: seq<ReviewNote>, note: ReviewNote)
    ensures Cards(env, shape, notes + [note]) == Cards(env, shape, notes) + multiset{CardOf(env, note, shape)}
  {
    assert (notes + [note])[..|notes|] == notes;
  }

  lemma {:induction false} CardsOfBoth(env: Env, inputs: Inputs, shape: Shape, file: DiffFile, notes: seq<ReviewNote>)
    ensures var agents := inputs.options.agentNotes;
      multiset(CardsFor(env, notes, file.id, true, agents, shape))
        + multiset(CardsFor(env, notes, file.id, false, agents, shape))
      == Cards(env, shape, Showable(inputs, file, notes))
  {
    hide CardOf, Cards, CardsFor, CanShow, ShowsNote, Showable;
    if notes != [] {
      var front, last, agents := notes[..|notes| - 1], notes[|notes| - 1], inputs.options.agentNotes;
      CardsOfBoth(env, inputs, shape, file, front);
      CardsPush(env, shape, Showable(inputs, file, front), last);
      CardsForPush(env, notes, file.id, true, agents, shape);
      CardsForPush(env, notes, file.id, false, agents, shape);
      ShowablePush(inputs, file, notes);
      assert Showable(inputs, file, front) + [] == Showable(inputs, file, front);
    } else {
      NoCards(env, inputs, shape, file);
    }
  }

  lemma NoCards(env: Env, inputs: Inputs, shape: Shape, file: DiffFile)
    ensures Cards(env, shape, Showable(inputs, file, [])) == multiset{}
    ensures forall fileLevel, agents :: CardsFor(env, [], file.id, fileLevel, agents, shape) == []
  {
  }

  lemma ShowablePush(inputs: Inputs, file: DiffFile, notes: seq<ReviewNote>)
    requires notes != []
    ensures var front, last, agents := notes[..|notes| - 1], notes[|notes| - 1], inputs.options.agentNotes;
      && Showable(inputs, file, notes) == Showable(inputs, file, front)
           + (if CanShow(inputs, file, last) then [last] else [])
      && (CanShow(inputs, file, last)
          <==> ShowsNote(last, file.id, true, agents) || ShowsNote(last, file.id, false, agents))
      && !(ShowsNote(last, file.id, true, agents) && ShowsNote(last, file.id, false, agents))
  {
  }

  lemma CardsForPush(env: Env, notes: seq<ReviewNote>, fileId: string, fileLevel: bool, agents: bool, shape: Shape)
    requires notes != []
    ensures var last := notes[|notes| - 1];
      multiset(CardsFor(env, notes, fileId, fileLevel, agents, shape))
      == multiset(CardsFor(env, notes[..|notes| - 1], fileId, fileLevel, agents, shape))
        + (if ShowsNote(last, fileId, fileLevel, agents) then multiset{CardOf(env, last, shape)} else multiset{})
  {
    hide CardOf, ShowsNote;
  }

  ghost predicate NoNotes(rows: seq<Row>) { forall i :: 0 <= i < |rows| ==> !rows[i].Note? }

  lemma NoNotesJoin(a: seq<Row>, b: seq<Row>)
    requires NoNotes(a) && NoNotes(b)
    ensures NoNotes(a + b)
  {
  }

  lemma {:induction false} NoNotesYet(file: DiffFile, layout: Layout, headers: bool, diff: Differ,
                                      context: Option<FileContext>, gaps: seq<CollapsedGap>, n: nat)
    requires n <= |file.hunks|
    ensures NoNotes(HunkSections(file, layout, headers, diff, context, gaps, n))
  {
    hide *;
    OneMoreSection(file, layout, headers, diff, context, gaps, n);
    if n > 0 {
      var rows := HunkRows(layout, diff, file.id, n - 1, file.hunks[n - 1].lines);
      var before := HunkSections(file, layout, headers, diff, context, gaps, n - 1);
      var gap := OptionalGapRows(file.id, layout, context, FindBefore(gaps, n - 1));
      NoNotesYet(file, layout, headers, diff, context, gaps, n - 1);
      NoNoteInGap(file.id, layout, context, FindBefore(gaps, n - 1));
      NoNoteInHunk(file, headers, n - 1, rows);
      NoNotesJoin(before, gap);
      NoNotesJoin(before + gap, HeaderRows(file, headers, n - 1));
      NoNotesJoin(before + gap + HeaderRows(file, headers, n - 1), Lift(rows));
    }
  }

  lemma OneMoreSection(file: DiffFile, layout: Layout, headers: bool, diff: Differ, context: Option<FileContext>,
                       gaps: seq<CollapsedGap>, n: nat)
    requires n <= |file.hunks|
    ensures NoNotes(HunkSections(file, layout, headers, diff, context, gaps, 0))
    ensures n > 0 ==>
      HunkSections(file, layout, headers, diff, context, gaps, n)
      == HunkSections(file, layout, headers, diff, context, gaps, n - 1)
        + OptionalGapRows(file.id, layout, context, FindBefore(gaps, n - 1)) + HeaderRows(file, headers, n - 1)
        + Lift(HunkRows(layout, diff, file.id, n - 1, file.hunks[n - 1].lines))
  {
    hide HunkRows, FindBefore, OptionalGapRows, HeaderRows, Lift;
  }

  lemma NoNoteInHunk(file: DiffFile, headers: bool, k: nat, rows: seq<LineRow>)
    requires k < |file.hunks|
    ensures NoNotes(HeaderRows(file, headers, k)) && NoNotes(Lift(rows))
  {
    hide SanitizeLine;
  }

  lemma NoNoteInGap(fileId: string, layout: Layout, context: Option<FileContext>, gap: Option<CollapsedGap>)
    ensures NoNotes(OptionalGapRows(fileId, layout, context, gap))
  {
    if gap.Some? {
      var lines := Expansion(context, gap.value).0;
      NoNoteExpanded(fileId, layout, gap.value.key.hunkIndex, lines, |lines|);
    }
  }

  lemma {:induction false} NoNoteExpanded(fileId: string, layout: Layout, hunk: nat, lines: seq<ContextLine>, n: nat)
    requires n <= |lines|
    ensures NoNotes(ExpandedRows(fileId, layout, hunk, lines, n))
  {
    if n > 0 { NoNoteExpanded(fileId, layout, hunk, lines, n - 1); }
  }

  lemma PlansHaveNoNotes(file: DiffFile, layout: Layout, headers: bool, diff: Differ, context: Option<FileContext>)
    ensures NoNotes(PlanWithContext(file, layout, headers, diff, context).rows)
  {
    hide HunkSections, OptionalGapRows, FindTrailing, GapsOf, LargestInHunks, Anchors;
    var gaps := GapsOf(file, context);
    NoNotesYet(file, layout, headers, diff, context, gaps, |file.hunks|);
    NoNoteInGap(file.id, layout, context, FindTrailing(gaps));
  }

  /** A file that is shown shows each of its notes once, but for agents' notes while those are hidden; nothing else. */
  lemma NotesAreShown(env: Env, inputs: Inputs, shape: Shape, file: DiffFile)
    requires !IsCompacted(env, inputs, file)
    requires PlanWithContext(file, shape.layout, inputs.options.hunkHeaders, env.diff,
                             ContextOf(inputs, file.id)).rows != []
    ensures multiset(ShownCards(PlannedOf(env, inputs, shape, file).plan.rows))
         == Cards(env, shape, Showable(inputs, file, inputs.notes))
  {
    hide PlanWithContext, CardsFor, WithNotes, CardOf, Cards;
    var plan := PlanWithContext(file, shape.layout, inputs.options.hunkHeaders, env.diff, ContextOf(inputs, file.id));
    PlansHaveNoNotes(file, shape.layout, inputs.options.hunkHeaders, env.diff, ContextOf(inputs, file.id));
    WeavingIsConservative(file.id, plan,
      CardsFor(env, inputs.notes, file.id, true, inputs.options.agentNotes, shape),
      CardsFor(env, inputs.notes, file.id, false, inputs.options.agentNotes, shape));
    CardsOfBoth(env, inputs, shape, file, inputs.notes);
  }

  // ---- Threads without a place ------------------------------------------------------------

  /** One of the threads with this name has a path that the filter lets through. */
  ghost predicate IsLetThrough(env: Env, unplaced: seq<UnplacedThread>, filter: string, id: string) {
    exists k :: 0 <= k < |unplaced| && unplaced[k].id == id && env.pathMatches(unplaced[k].path, filter)
  }

  lemma {:induction false} UnplacedRows(env: Env, unplaced: seq<UnplacedThread>, filter: string, width: nat, id: string)
    ensures HasCard(TrailerNotes(env, unplaced, filter, width), id) <==> IsLetThrough(env, unplaced, filter, id)
  {
    if unplaced != [] {
      hide UnplacedCard, HasCard, IsLetThrough, NoteRow;
      var front, last := unplaced[..|unplaced| - 1], unplaced[|unplaced| - 1];
      UnplacedRows(env, front, filter, width, id);
      var card := UnplacedCard(env, last, width);
      CardIsNamed(env, last, width);
      var before := TrailerNotes(env, front, filter, width);
      assert before + [] == before;
      CardPush(before, card.target.fileId, card, id);
      ThreadPush(env, front, last, filter, id);
      assert front + [last] == unplaced;
    } else {
      assert TrailerNotes(env, unplaced, filter, width) == [];
    }
  }

  lemma CardPush(rows: seq<Row>, fileId: string, card: NoteCard, id: string)
    ensures HasCard(rows + [NoteRow(fileId, card)], id) <==> HasCard(rows, id) || card.id == id
  {
    var all := rows + [NoteRow(fileId, card)];
    if card.id == id { assert IsCard(all[|rows|], id); }
    if HasCard(rows, id) {
      var r: nat :| r < |rows| && IsCard(rows[r], id);
      assert IsCard(all[r], id);
    }
  }

  lemma ThreadPush(env: Env, front: seq<UnplacedThread>, last: UnplacedThread, filter: string, id: string)
    ensures IsLetThrough(env, front + [last], filter, id)
      <==> IsLetThrough(env, front, filter, id) || (last.id == id && env.pathMatches(last.path, filter))
  {
    var all := front + [last];
    assert all[|front|] == last && forall k :: 0 <= k < |front| ==> all[k] == front[k];
  }

  lemma CardIsNamed(env: Env, thread: UnplacedThread, width: nat)
    ensures UnplacedCard(env, thread, width).id == thread.id
  {
  }

  predicate IsCard(row: Row, id: string) { row.Note? && row.card.id == id }

  ghost predicate HasCard(rows: seq<Row>, id: string) { exists r: nat :: r < |rows| && IsCard(rows[r], id) }

  /** After all files come the threads without a place, those whose path the filter lets through and no others. */
  lemma UnplacedAreShown(env: Env, inputs: Inputs, shape: Shape, id: string)
    ensures var trailer := TrailerOf(env, inputs, shape);
      trailer.Some? && HasCard(trailer.value.rows, id) <==> IsLetThrough(env, inputs.unplaced, inputs.filter, id)
  {
    hide UnplacedCard, TrailerNotes, IsLetThrough;
    UnplacedRows(env, inputs.unplaced, inputs.filter, shape.contentWidth, id);
    assert !HasCard([], id);
  }

  // ---- Cards ------------------------------------------------------------------------------

  /** A card is as wide as its room but for 4 cells, or docked to its side of a wide split; its text 4 cells less. */
  lemma BoxFills(layout: Layout, side: Option<Side>, width: nat)
    ensures var columns, docks := BoxContentWidth(layout, side, width), layout == SplitLayout && width >= 84;
      && (docks && side == Some(Old) ==> columns + 4 == width / 2)
      && (docks && side == Some(New) ==> columns + 4 == width - width / 2)
      && (!(docks && side.Some?) && width >= 9 ==> columns + 8 == width)
      && (width < 9 ==> columns == 1)
  {
  }

  /** With 10 cells of room every line of a note fits inside its card. */
  lemma CardFits(w: CellWidth, id: string, target: NoteTarget, text: string, layout: Layout, width: nat)
    requires TerminalWidths(w) && width >= 10
    ensures var card := TextCard(w, id, target, text, layout, width);
      forall k :: 0 <= k < |card.lines| ==> Cells(w, card.lines[k]) + 8 <= width
  {
    var columns := BoxContentWidth(layout, target.anchorSide, width);
    BoxFills(layout, target.anchorSide, width);
    WrapFitsIff(w, columns, text);
    hide BoxContentWidth;
    assert columns + 8 <= width;
  }
}
