# Ramo, modelled and proved

Ramo reviews a diff in the terminal. This project models its review engine and the protocols around it in
Dafny 4.11 and proves what they promise. `dafny verify dfyconfig.toml` checks everything.

Code that works by steps is modelled as methods and classes: the loops of the planner, the wrapper, the
tokenizer, the parser and the version printer, and the objects whose fields change (the review controller,
the Ask session and its workers, the markup parser, the layout cache, review progress, the chat pane, the
configuration document). Each is proved equal to a specification function, and the results are proved about
that function, so they hold of what the loops compute.

| area | files |
|---|---|
| text, widths, terminal sanitizing | `Text`, `Sanitize`, `SanitizeGrammar` |
| note wrapping and the caret | `Wrapping`, `WrappingProofs` |
| diff rows, gaps, plans, notes | `DiffModel`, `Emphasis`, `Context`, `Rows`, `RowEmphasis`, `Plan`, `PlanProofs`, `Notes`, `NoteProofs` |
| geometry and viewport anchoring | `Geometry`, `GeometryProofs`, `Anchor`, `AnchorProofs` |
| the review controller | `ControllerModel`, `ControllerProofs`, `RowKeys`, `Movement`, `MovementProofs`, `Controller`, `ActionProofs`, `Progress` |
| comment targets and imported threads | `CommentTargets`, `CommentTargetProofs` |
| the Ask protocol | `AskProtocol`, `AskAnswers`, `AskProofs`, `AskSession` |
| STML markup | `StmlParse`, `StmlProofs`, `StmlTree`, `StmlRoundTrip`, `StmlLayout`, `StmlLayoutProofs`, `StmlSpacing`, `LayoutCache` |
| chat deltas, configuration migration, versions | `Chat`, `ChatProofs`, `Migration`, `MigrationProofs`, `Version`, `VersionProofs` |

Parameters stand for what the program gets from elsewhere: the width of a character in cells, the edit script
of two lines (any script that spells both), the digest of a chat entry, filter and test-file matching, what
reading a source file gives, whether a worker could be started, and the layout behind the cache.

## What the code does that one might not expect

- A chat section shows 40 entries, but the watermark marks all of them as sent: the rest never reaches the
  model until it changes (`ChatProofs.NotesSyncIff`, `ChatProofs.NothingIsSentTwice`). Clearing the overall
  comment is never sent either (`ChatProofs.RunKeepsOverall`).
- Moving flat configuration keys changes what the file means in four cases, and exactly in those
  (`MigrationProofs.MeaningIsKeptIff`): `transparent_background` written in both spellings that disagree (the loader
  prefers the camel one, the move keeps the snake one); test file patterns both flat and in the section (the loader
  joins them, the move keeps the section's); a flat key whose section is an inline table without it (the value is
  removed and put nowhere); and a theme written as an inline table, which is taken for the theme's name and moved
  whole under `[theme] name`, where the loader refuses it.
- Code blocks keep a cell of padding at any width, so their frames overflow below 5 cells; boxes and cards cut
  their padding and do not. A frame's title needs 3 cells.
- A row whose fixed columns leave less than a cell per flexible column overflows, and so do two or more fixed columns
  that ask for more than there is: each is only cut to the whole row. One column alone is cut to fit
  (`StmlLayoutProofs.ColumnsFillIff`, `StmlLayoutProofs.FullWidthsOverflow`).
- The spacers of the visible window do not sum to the total height when the window falls between two rows, on a
  separator or header (`GeometryProofs.SpacersSumIff`). Windows of more than two lines never do, and what is drawn,
  with two lines of overscan, is such a window (`ControllerProofs.DrawnWindowSums`).
- An anchor captured on a separator or header restores to the next row.
- Wrapping at width 1 cannot fit a double-width character (`WrappingProofs.WideGlyphOverflows`). A word without any width at the end of a source line can
  be dropped, and at width 1 so can marks on a double-width character there (`WrappingProofs.DroppedIff`,
  `WrappingProofs.NothingIsEverDroppedIff`).
- The chat tells new and changed notes by anchor and body and removed ones by id, so the text alone does not say
  which note is gone (`ChatProofs.SameTextDifferentNotes`). It is enough while notes are only added
  (`ChatProofs.GrowingNotesAreTold`), and for a reader who is told the ids (`ChatProofs.RunKeepsReaderInSync`).
- Asking for a hunk of a file that the filter hides lands in another file, though the session that asked is told it
  landed in the one it named (`RowKeys.HiddenIsNotReached`).
- A published comment comes back anchored to its last line; it was made anchored to its first. It does not come back
  at all when no hunk holds its lines, though they could be selected: lines of expanded context, and ranges that run
  from one hunk into the next (`CommentTargetProofs.ComesBackIff`).
- Gaps and hunks number a side completely only when the other side leaves at least as many unchanged lines before
  every hunk (`Context.GapsPartition`). An insertion in a diff without context lines does not: its old side starts at
  the line before it, and that line is numbered by nothing (`PlanProofs.InsertionIsNotAligned`).
- Toggling context when there is no gap to toggle keeps the source it read without rebuilding. That is right: the
  plans would come out the same (`ControllerProofs.CacheUnchanged`).

## Model

| member | source | states |
|---|---|---|
| `Sanitize.SanitizeTerminalText` | src/input/pager.rs:36-93 | the state machine over characters outputs exactly the printed characters and, in SGR mode, the complete colour sequences of the input |
| `Sanitize.PlainOutputIsPrintable` | src/input/pager.rs:36-93 | without SGR no control character but newline and tab survives, and no line ends in CR LF |
| `Sanitize.SgrOutputIsSafe` | src/input/pager.rs:36-93 | with SGR every escape in the output starts a complete ESC [ digits-or-semicolons m sequence |
| `Sanitize.SanitizeTwice` | src/input/pager.rs:36-93 | each mode is idempotent, and plain mode after SGR mode equals plain mode alone |
| `Sanitize.UnchangedIffPrintable` | src/input/pager.rs:36-93 | plain sanitizing changes nothing exactly when the input is already printable |
| `SanitizeGrammar.SanitizedByGrammar` | src/input/pager.rs:36-93 | every text reads as characters, escape pairs, control sequences and commands, with perhaps an unfinished one at the end; what is left is exactly its printable characters, newlines and tabs and, where asked for, its colour sequences as written |
| `Wrapping.WrapNoteTextIndexed` | src/review/row.rs:1247-1336 | the nested loops over words and glyphs compute the lines, and one source index per rendered character, of the specification |
| `WrappingProofs.WrapIsLossless` | src/review/row.rs:1247-1336 | source indices increase over all lines, each names its own character or the first blank of the run it replaces, and every visible non-blank character appears |
| `WrappingProofs.WrapFitsIff` | src/review/row.rs:1247-1336 | at any width, every line fits if and only if no character to be shown is wider than a line: always from width 2 up |
| `WrappingProofs.WideGlyphOverflows` | src/review/row.rs:1247-1336 | at width 1 a lone double-width character overflows |
| `WrappingProofs.WrapIsGreedy` | src/review/row.rs:1247-1336 | a line is broken only where the next word or glyph would not have fitted, spacing within a line mirrors the source, and empty source lines keep their place |
| `WrappingProofs.LinesHangUnderTheirIndent` | src/review/row.rs:1241-1312 | each rendered line of a source line starts with exactly that line's leading blanks, mapped to its first index, when they leave 4 cells of the width, and with none of them otherwise |
| `WrappingProofs.DroppedIff` | src/review/row.rs:1247-1336 | at any width, a character is missing exactly when it is among what is left on the line at the end of its source line and nothing there has width |
| `WrappingProofs.NothingIsDropped` | src/review/row.rs:1247-1336 | nothing is missing if no source line ends in a word without width or, at width 1, in marks on a double-width character |
| `WrappingProofs.NothingIsEverDroppedIff` | src/review/row.rs:1247-1336 | nothing is missing at any width, and at width 1, exactly when no source line has such an end |
| `WrappingProofs.CaretIsExact` | src/review/row.rs:1340-1358 | a caret on a rendered non-blank character is placed on the row and column where that character is drawn |
| `WrappingProofs.CaretIsMonotone` | src/review/row.rs:1340-1358 | a larger caret never maps to an earlier cell |
| `Emphasis.EmphasizePair` | src/review/emphasis.rs:31-101 | spans of a pair of lines: emphasis by script, flattened for rewrites, merged, per side |
| `Emphasis.EmphasisKeepsText` | src/review/emphasis.rs:31-101 | for any sound differ each side spells its own line, with no empty span and no two equal neighbours |
| `Emphasis.EmphasisIsExact` | src/review/emphasis.rs:25-86 | of a pair that is no rewrite exactly the characters of removed and inserted pieces with something visible are emphasized; of a rewrite, several changed stretches that make up more than 0.6 of a side, none |
| `Context.DeriveCollapsedGaps` | src/review/context.rs:99-147 | the cursor loop over hunks yields the gaps before hunks and the one after the last |
| `Context.GapsPartition` | src/review/context.rs:99-147 | for ordered hunks the gaps and the hunks number the side 1..length, each once and in order, if and only if the hunks are aligned on it |
| `Rows.BuildSplitRows` | src/review/row.rs:744-810 | the block-pairing loop computes the split rows of a hunk |
| `Rows.SplitShows` | src/review/row.rs:744-810 | non-empty cells of a side are exactly that side's lines, in order, with their kinds, numbers and sanitized text |
| `Rows.BlockShows` | src/review/row.rs:744-810 | a changed block takes max(deletions, additions) rows |
| `Rows.BuildStackRows` | src/review/row.rs:812-899 | the loop over lines with its deletion and addition counters computes the stacked rows |
| `Rows.StackShows` | src/review/row.rs:812-899 | stacked rows are the hunk's lines one by one |
| `Rows.LayoutsAgree` | src/review/row.rs:744-899 | split or stacked, each side of the hunk is shown line for line |
| `RowEmphasis.CellsAgree` | src/review/row.rs:744-899 | both layouts show a side in the very same cells, emphasis included |
| `RowEmphasis.BlockIsCompared` | src/review/row.rs:774-887 | the k-th removed line of a block is compared with the k-th added one; a line without a counterpart is emphasized whole |
| `Plan.AppendGapRows` | src/review/row.rs:618-706 | the rows of a gap: its caption by state of its source, and its expanded lines |
| `Plan.BuildRowPlanWithContext` | src/review/row.rs:244-307 | gaps, headers, line rows, hunk anchors and number width of a file's plan |
| `PlanProofs.FullExpansion` | src/review/row.rs:244-307 | with every gap expanded, the side's cells carry the line numbers 1..length once each, in order, with the sanitized source text, if and only if the file's hunks are aligned on the side |
| `PlanProofs.InsertionIsNotAligned` | src/review/context.rs:99-147 | a line inserted in a diff without context lines: gaps and hunk miss a line |
| `PlanProofs.NumbersFit` | src/review/row.rs:1360-1375 | the gutter has room for every line number of the diff, and no more digits than the largest needs |
| `PlanProofs.GapIsShown` | src/review/row.rs:618-706 | a gap's caption counts its lines; an expanded one shows as many rows if its source could be read and is long enough, and otherwise the caption says why not |
| `Notes.WeaveNotes` | src/review/row.rs:309-441 | file-level cards first, then each row followed by the cards anchored to it |
| `Notes.WeavingIsConservative` | src/review/row.rs:309-441 | weaving removes and reorders no row and shows every card exactly once |
| `NoteProofs.CardsHang` | src/review/row.rs:421-441 | under each row of the plan come the cards that hang under it, in the order given, and then the next row: a card hangs under the first row with its line, else the first of its hunk, else the first of all |
| `NoteProofs.NotesAreShown` | src/review/row.rs:309-441 | a file shows each of its notes once, but for agents' notes while those are hidden, and no others |
| `NoteProofs.UnplacedAreShown` | src/review/row.rs:443-482 | after all files come the threads without a place whose path the filter lets through, and no others |
| `NoteProofs.CardFits` | src/notes/target.rs:283-311 | with 10 cells of room every line of a note fits inside its card |
| `Notes.DraftCaretInCard` | src/review/row.rs:1089-1120 | the caret of a draft card is a cell of the card, however the text wraps |
| `Geometry.BuildReviewGeometry` | src/review/geometry.rs:302-404 | sections, row bounds, trailer and the three indices of the document |
| `Geometry.SearchesAgree` | src/review/geometry.rs:221-295 | binary search over a partitioned sequence finds what linear search finds |
| `GeometryProofs.GeometryTiles` | src/review/geometry.rs:302-404 | separators, headers and rows cover [0, total height) without gap or overlap, and every row is at least one cell high |
| `GeometryProofs.HeightsAreNeeded` | src/review/geometry.rs:408-453 | with wrapping each row is the least height that holds all cells of its text; without, lines are one cell high; a note is as high as its card |
| `GeometryProofs.CodeWidthsFill` | src/review/geometry.rs:104-147 | gutters and code fill the content width, and the two sides of a split row differ by at most a cell |
| `GeometryProofs.RowAtOffsetIsFirst` | src/review/geometry.rs:221-229 | the row found at an offset inside a row is that row |
| `GeometryProofs.FileAtOffsetIsLast` | src/review/geometry.rs:251-259 | the file found at an offset is the last one that starts at or before it |
| `GeometryProofs.WindowIsExact` | src/review/geometry.rs:261-295 | the visible window holds exactly the rows meeting the overscanned viewport; if it is not empty, spacers and rendered rows sum to the total height |
| `GeometryProofs.SpacersSumIff` | src/review/geometry.rs:261-295 | for any view and overscan, spacers and rendered rows sum to the total height if and only if the overscanned viewport does not lie in a gap between two rows or below the last |
| `GeometryProofs.TallWindowsSum` | src/review/geometry.rs:261-295 | laid out from plans with rows, the sum holds of every window spanning more than two lines, and one that starts above the end holds a row |
| `GeometryProofs.ShortWindowsFallBetween` | src/review/geometry.rs:261-295 | a window of up to two lines on the header of a second file renders nothing, and its spacers do not sum |
| `ControllerProofs.DrawnWindowSums` | src/ui/review.rs:466-468 | at any scroll position the controller allows, the window drawn is empty only if there are no rows, and its spacers make up the rest of the document |
| `Anchor.AnchorIsStable` | src/review/anchor.rs:13-58 | restoring what was captured is the identity inside a row, the next row's top above one, idempotent, and never past the maximum scroll |
| `Anchor.AnchorFollowsRow` | src/review/anchor.rs:13-58 | in a changed geometry the view lands inside the row with the same key, at the same depth when it fits, unless the end clamps it |
| `AnchorProofs.GoneGoesToHunk` | src/review/anchor.rs:35-58 | when the row at the top is gone, the view goes to the first line of the hunk it was in, if there is one |
| `AnchorProofs.GoneGoesToFile` | src/review/anchor.rs:35-58 | else to the start of the file, if it is still shown |
| `AnchorProofs.GoneStays` | src/review/anchor.rs:35-58 | else back to the offset it was at |
| `RowKeys.PlanIsDistinct` | src/review/row.rs:244-307 | no two rows of a file's plan have the same key, whatever gaps are expanded |
| `RowKeys.CacheIsWellKeyed` | src/review/geometry.rs:302-404 | no two rows of a review's geometry have the same key, with notes and unplaced threads, so its key index names every row and anchors apply |
| `ControllerModel.BuildCache` | src/review/state.rs:2016-2102 | visible files, effective layout, plans with notes, trailer and geometry are rebuilt from the inputs |
| `ControllerModel.BoundsHaveRows` | src/review/state.rs:2900-2913 | every bound of a rebuilt geometry names a row of the plans, the one with its key: looking a row up never fails |
| `ControllerModel.ReselectedCanBeSelected` | src/review/state.rs:2117-2160 | the row chosen after a rebuild can be selected, and none is chosen only when nothing can be |
| `ControllerProofs.RebuiltCursorIsOk` | src/review/state.rs:2117-2167 | the cursor a rebuild leaves is on a selectable or note row of the new geometry |
| `ControllerProofs.SelectionSurvives` | src/review/state.rs:2117-2130 | a selected row that is still there stays selected through a rebuild |
| `ControllerProofs.NearestIsChosen` | src/review/state.rs:2117-2160 | when the selected row is gone, the row of its hunk with the nearest line is chosen, the upper of two, else of its file, else the first of all |
| `ControllerProofs.PlanUnchanged` | src/review/state.rs:1610-1640 | reading a source that adds no trailing gap leaves the plan as it was, line for line |
| `ControllerProofs.CacheUnchanged` | src/review/state.rs:1610-1640 | so the cache stays true to the inputs on the path that keeps a source without rebuilding |
| `ControllerProofs.ToggleTwiceCollapses` | src/review/state.rs:1562-1649 | toggling a collapsed gap expands it; toggling it again collapses it and nothing else |
| `ControllerProofs.SourceIsReadOnce` | src/review/state.rs:1562-1649 | a source is read once, of the new side unless the file was deleted |
| `ControllerProofs.GapToToggle` | src/review/context.rs:149-157 | without a gap asked for, the first gap before the selected hunk or a later one is toggled, else the one after the last hunk |
| `ControllerProofs.ArrangedKeepsFiles` | src/review/state.rs:2795-2798 | ordering test files last is a permutation with all test files at the end |
| `ControllerProofs.ReloadKeeps` | src/review/state.rs:1651-1686 | a reload keeps exactly the notes and marks whose file is still there, the notes in order, and drops all loaded context |
| `ControllerProofs.Compacting` | src/review/state.rs:1902-1907 | a file marked viewed is compacted to one row, and so is a test file while these are compacted unless it was expanded; no other file is |
| `ControllerProofs.ScrollsToTheLongest` | src/review/state.rs:2544-2580 | unwrapped lines scroll sideways exactly as far as the one that runs furthest past its code; wrapped ones not at all |
| `ControllerProofs.RevealShows` | src/review/state.rs:2362-2380 | bringing a row into view shows all of it when it fits, and moves nothing when it already shows |
| `Controller.ReviewController.constructor` | src/review/state.rs:390-435 | the first state is dirty, has nothing cached, and has the first file's first hunk selected |
| `Controller.ReviewController.Rebuild` | src/review/state.rs:1995-2174 | after a rebuild cache, cursor and offsets are true to the inputs; cursor and scroll are the ones derived from what was selected before |
| `Controller.ReviewController.EnsureGeometry` | src/review/state.rs:1989-1993 | afterwards everything is clean for this viewport; if it already was, nothing moved |
| `Controller.ReviewController.SelectFromViewport` | src/review/state.rs:2257-2285 | the selectable row whose middle is nearest to the middle of the view, or nothing |
| `Controller.ReviewController.EnsureCursorVisible` | src/review/state.rs:2362-2380 | scrolls by the least amount that shows the selected row, within the maximum |
| `Controller.ReviewController.Scroll` | src/review/state.rs:1728-1739 | scrolls by the unit within the maximum and selects from the view |
| `Controller.ReviewController.ScrollHorizontal` | src/review/state.rs:1740-1745 | stays within the widest overflow |
| `Controller.ReviewController.MoveCursor` | src/review/state.rs:2287-2311 | moves over the selectable rows, stopping at either end |
| `Controller.ReviewController.MoveNote` | src/review/state.rs:2202-2227 | moves over the note rows, around either end |
| `Controller.ReviewController.SelectNote` | src/review/state.rs:1792-1812 | selects the note with that id if it is shown, and otherwise nothing changes |
| `Controller.ReviewController.JumpTop` | src/review/state.rs:1756-1764 | first selectable row at scroll zero |
| `Controller.ReviewController.JumpBottom` | src/review/state.rs:1765-1773 | last selectable row at the maximum scroll |
| `Controller.ReviewController.FocusSide` | src/review/state.rs:1750-1755 | focuses a side unless the selected row shows only the other |
| `Controller.ReviewController.SelectTarget` | src/review/state.rs:2229-2255 | lands on the requested hunk of the requested file if and only if the filter lets the file through and the hunk has a row to select; where it lands otherwise is stated too |
| `Controller.TargetIsReachedIff` | src/review/state.rs:2229-2255 | the same, of the cursor as a function of the rebuilt cache |
| `RowKeys.HiddenIsNotReached` | src/review/state.rs:2229-2255 | asking for a file that the filter hides never selects it |
| `Controller.ReviewController.MoveFile` | src/review/state.rs:2176-2185 | the next visible file around either end, on its first hunk |
| `Controller.ReviewController.MoveHunk` | src/review/state.rs:2187-2200 | the next hunk over all visible files, around either end |
| `Controller.ReviewController.SelectFile` | src/review/state.rs:1786-1791 | selects a visible file's first hunk and ignores a hidden one |
| `Controller.ReviewController.ToggleFileViewed` | src/review/state.rs:1909-1938 | flips the viewed mark of the file under the cursor and reports it; unviewing expands it |
| `Controller.ReviewController.ExpandCompactedFile` | src/review/state.rs:1940-1965 | a compacted file is compacted no more; any other is left alone |
| `Controller.ReviewController.SetNotes` | src/review/state.rs:942-975 | any change of notes, drafts, answers or threads rebuilds |
| `Controller.ReviewController.ResizeSidebar` | src/review/state.rs:1521-1532 | clamps the width between 20 cells and what leaves 40 for the content |
| `Controller.ReviewController.ScrollToMouseRow` | src/review/state.rs:1534-1543 | proportional position, zero at the top and the maximum at the bottom |
| `Controller.ReviewController.KeepSource` | src/review/state.rs:1610-1640 | keeps a source that brings no gap without a rebuild, and the cache is still the one a rebuild would give |
| `Controller.ReviewController.ToggleContextTarget` | src/review/state.rs:1562-1649 | contexts and result of a toggle by requested gap or cursor, with the cache clean on every path |
| `Controller.ReviewController.ReplaceFiles` | src/review/state.rs:1651-1719 | keeps what still has a home, and the view returns to the captured anchor |
| `Controller.ReviewController.Apply` | src/review/state.rs:1721-1893 | from the place the geometry gives, every action ends in the cursor, side, scroll and offset of `Movement.After`, with its inputs and effect; what a pager refuses and what is only forwarded moves nothing |
| `ActionProofs.TopAndBottom` | src/review/state.rs:1756-1773 | top goes to the first row that can be selected and scroll zero, bottom to the last and the maximum scroll |
| `ActionProofs.CursorSteps` | src/review/state.rs:2287-2311 | the cursor goes to the next row that can be selected or the one before, and stays at either end |
| `ActionProofs.Scrolls` | src/review/state.rs:1728-1739 | by a line, a screen or half of one, to either end at most; then the row nearest to the middle of the view is selected, the upper of two |
| `ActionProofs.ScrollsAside` | src/review/state.rs:1740-1745 | sideways by a cell, from the start of the lines to the end of the longest |
| `ActionProofs.FocusIsTaken` | src/review/state.rs:1750-1755 | a side gets the focus unless the selected row shows only the other; nothing else moves |
| `ActionProofs.NoteActions` | src/review/state.rs:2202-2227 | from a note to the next one, the first after the last, and back |
| `ActionProofs.NoteFromElsewhere` | src/review/state.rs:2202-2227 | from elsewhere on to the first note and back to the last |
| `ActionProofs.NoteIsPicked` | src/review/state.rs:1792-1812 | a note that is shown is gone to; for one that is not nothing moves |
| `ActionProofs.FileSteps` | src/review/state.rs:2176-2185 | from a visible file to the first hunk of the next one, the first after the last, and back |
| `ActionProofs.HunkSteps` | src/review/state.rs:2187-2200 | from a hunk to the next one of the visible files, the first after the last, and back |
| `MovementProofs.HunksInOrder` | src/review/state.rs:2382-2390 | the hunks moved over are those of the visible files, file by file |
| `ActionProofs.FileIsPicked` | src/review/state.rs:1786-1791 | a visible file is gone to, on its first hunk; a hidden one moves nothing |
| `MovementProofs.WrappingSteps` | src/review/state.rs:2176-2227 | one on is the next position, or the first after the last, and one back undoes it |
| `MovementProofs.TogglesUndo` | src/review/state.rs:1813-1862 | a toggle turns its own switch and no other, and made twice it is undone |
| `AskSession.AskRuntime.Start` | src/ask/runtime.rs:63-92 | reaps, then starts a worker unless three are held or the thread cannot be spawned |
| `AskSession.AskRuntime.TryRecv` | src/ask/runtime.rs:94-96 | takes updates first in, first out |
| `AskSession.AskRuntime.Reap` | src/ask/runtime.rs:103-105 | drops exactly the finished workers |
| `AskSession.AskSession.BeginAsk` | src/review/state.rs:807-853 | opens a draft in a new thread, or in the thread of the question it follows unless that is pending |
| `AskProofs.BeginFollows` | src/review/state.rs:807-885 | a question from a card, or else from the lines of a question, the last one that covers the row, joins that thread with that target; while the thread waits for an answer nothing opens |
| `AskProofs.BeginAlone` | src/review/state.rs:807-853 | with nothing to follow it opens a thread of its own about the selected lines, if there are any |
| `AskSession.AskSession.UpdateAskDraft` | src/review/state.rs:905-915 | replaces the draft's text |
| `AskSession.AskSession.CancelAskDraft` | src/review/state.rs:933-940 | drops the draft |
| `AskSession.AskSession.CommitAsk` | src/review/state.rs:942-961 | a non-blank draft becomes a pending note and is dispatched; a blank one is dropped |
| `AskSession.AskSession.DispatchAsk` | src/app.rs:2511-2549 | starts a job for the note, or fails the note when the workers are busy |
| `AskSession.AskSession.ResolveAsk` | src/review/state.rs:963-975 | sets the answer of exactly the note with that id, stored as `AskAnswers.OutcomeIsStored` says |
| `AskAnswers.AnswerIsClamped` | src/review/state.rs:2736-2757 | an answer is stored as the longest run of its first lines within 80 lines and 8 KiB of UTF-8, joined by newlines, and then a marker line if any was left out |
| `AskAnswers.OutcomeIsStored` | src/review/state.rs:963-975 | answers are stored so, and failures as they were reported |
| `AskAnswers.ShortAnswerIsKept` | src/review/state.rs:2736-2757 | an answer within both limits is stored line for line |
| `AskSession.AskSession.PollAsk` | src/app.rs:2551-2587 | takes up to eight updates, resolves their notes, forgets dropped ones and reaps |
| `AskSession.AskSession.ReplaceFiles` | src/review/state.rs:1687-1697 | drops notes and draft whose file is gone |
| `AskProofs.KeptNotesIs` | src/review/state.rs:1687-1697 | a reload keeps exactly the questions whose file is still there |
| `AskSession.AskSession.JumpToAskAnswer` | src/app.rs:2589-2606 | takes the oldest unseen answer |
| `AskProofs.RunKeeps` | src/ask/runtime.rs:63-105 | over every legal interleaving: at most three workers, pending notes and open jobs one to one, threads rooted, only the last of a thread pending |
| `AskProofs.NeverStranded` | src/app.rs:2511-2587 | at any point of any run, a note is pending if and only if it has exactly one job, which is either running or has its one update queued |
| `AskProofs.PollsResolveAll` | src/app.rs:2551-2587 | once no worker is running, polling until the channel is empty leaves no note pending |
| `AskProofs.ResolvedOnce` | src/review/state.rs:963-975 | whatever runs afterwards, a resolved note keeps its state or is dropped |
| `AskProofs.ReceiveAnswersItsNote` | src/app.rs:2551-2587 | an update resolves exactly the note its job was started for, with that job's outcome: an answer as its lines within the limits, a failure as it was |
| `AskProofs.PollKeeps` | src/app.rs:2551-2587 | a poll keeps the invariant and shortens the queue by up to eight |
| `CommentTargets.ResolveSelection` | src/review/state.rs:988-1096 | target or error of a selection, errors in the order the rows give them |
| `CommentTargetProofs.TargetIsTheSelection` | src/review/state.rs:1020-1096 | an accepted selection is of one file and side, and its range holds exactly the selected lines |
| `CommentTargetProofs.SelectionIs` | src/review/state.rs:988-1096 | a selection is accepted exactly when its rows are of one file that is there, all have a line on one side, and go down line by line; otherwise it is refused for the first of these that fails, at the first row where it does |
| `CommentTargets.PlaceGithubThreads` | src/review/github_threads.rs:26-40 | threads by file in order, and the unplaced ones with their reasons |
| `CommentTargetProofs.ComesBackIff` | src/review/github_threads.rs:42-133 | any accepted selection comes back if and only if one hunk holds all its lines: to the same file, range and side, in the first such hunk, anchored to its last line; otherwise it is refused for want of a hunk |
| `CommentTargetProofs.CommentComesBack` | src/review/github_threads.rs:42-133 | so a target on lines of one hunk comes back to that hunk, which is the one it was made in |
| `CommentTargetProofs.ExpandedDoesNotComeBack` | src/review/state.rs:1021-1096 | every line of expanded context of an ordered diff is accepted, and no such comment comes back |
| `CommentTargetProofs.ContextLineIsRefused` | src/review/github_threads.rs:78-106 | the line above a changed one, accepted and refused |
| `CommentTargetProofs.RangeAcrossHunksIsRefused` | src/review/github_threads.rs:78-106 | lines added by two adjacent hunks, shown next to each other, accepted as one range and refused |
| `CommentTargetProofs.SameHunk` | src/notes/target.rs:193-221 | when numbers grow from hunk to hunk, the first hunk overlapped and the first holding the range are the one it came from |
| `CommentTargetProofs.LaidOutRowsAreOfHunk` | src/review/row.rs:744-899 | rows picked from a laid-out hunk, split or stacked, show lines of that hunk |
| `CommentTargetProofs.EveryThreadOnce` | src/review/github_threads.rs:26-40 | every thread ends up once, under its file in the order given or among the unplaced |
| `Progress.ReviewProgress.constructor` | src/review/progress.rs:33-41 | nothing reviewed, changed lines in document order |
| `Progress.ReviewProgress.ObserveThrough` | src/review/progress.rs:57-72 | reviews exactly the changed lines up to the furthest seen, and says whether that was news |
| `Progress.ReviewProgress.MarkFileReviewed` | src/review/progress.rs:74-83 | reviews exactly the file's changed lines |
| `Progress.ReviewProgress.ReplaceFiles` | src/review/progress.rs:92-95 | keeps what is still there of what was reviewed |
| `Progress.ReachIsFurthest` | src/review/progress.rs:57-72 | the prefix reaches every known line seen and ends at one of them |
| `Progress.ReviewProgress.FullMeansAllReviewed` | src/review/progress.rs:97-109 | 100 percent exactly when every changed line is reviewed |
| `Progress.RowsShowChanges` | src/review/progress.rs:43-55 | all rows of a hunk, split or stacked, carry exactly its changed lines |
| `StmlParse.ReadOpenTagLoop` | src/markup/parse.rs:301-379 | the attribute cursor loop reads the tag of the specification |
| `StmlParse.Parser.Parse` | src/markup/parse.rs:93-173 | the loop over markup, with its stack, errors and limits, reaches the specified parser state |
| `StmlParse.Parser.Close` | src/markup/parse.rs:175-206 | closes up to the last open element of that name, reporting what was closed by implication, or reports a stray tag |
| `StmlParse.ClosesInnermost` | src/markup/parse.rs:175-206 | a closing tag takes the innermost open element of its name and all above it off the stack, keeps all below, and reports what it closed by implication; without such an element it changes nothing but the errors |
| `StmlParse.Parser.AddText` | src/markup/parse.rs:222-240 | appends to a text sibling or adds a node, within the limit |
| `StmlProofs.ParsedIsWellFormed` | src/markup/parse.rs:53-292 | links, stack path, text merging, depth, node and error limits hold of every parse |
| `StmlProofs.EveryIndexOnce` | src/markup/parse.rs:92-292 | every arena index is once among roots and child lists, below its parent |
| `StmlTree.MaterializedIsComplete` | src/markup/parse.rs:381-397 | materializing yields exactly as many nodes as the arena holds |
| `StmlRoundTrip.RoundTrip` | src/markup/parse.rs:53-397 | the written form of any forest of elements with attributes, void elements, code and plain texts, within the limits, parses and materializes to that forest without errors |
| `StmlLayout.Tokenize` | src/markup/layout.rs:863-911 | runs of words, spaces and breaks by span; spaces with a background are words |
| `StmlLayout.WrapSpans` | src/markup/layout.rs:794-861 | the token loop computes the wrapped lines |
| `StmlLayoutProofs.TokensSpell` | src/markup/layout.rs:863-911 | tokens carry the spans' visible characters, in order and with their styles |
| `StmlLayoutProofs.WrapShowsEverything` | src/markup/layout.rs:794-861 | wrapped lines show every visible character once, in order and in its own style, at any width |
| `StmlLayoutProofs.WrapFitsIff` | src/markup/layout.rs:794-861 | no line is wider than asked if and only if no single visible character is |
| `StmlSpacing.WrapIsStretches` | src/markup/layout.rs:794-861 | each wrapped line is a stretch of the text, blanks included; between lines lie only characters that do not show and at most one newline; a line ends only at a newline or when the next word makes it too wide |
| `StmlLayout.FrameLines` | src/markup/layout.rs:631-758 | padding, sides, title and borders of a frame |
| `StmlLayoutProofs.FrameIsExactIff` | src/markup/layout.rs:631-758 | around fitting content every line is exactly as wide as asked if and only if the frame has room for its border, title and padding |
| `StmlLayoutProofs.FrameShowsContent` | src/markup/layout.rs:631-758 | line i of the content stands padded between the sides, below the top |
| `StmlLayoutProofs.BoxIsExact` | src/markup/layout.rs:327-380 | boxes and cards cut their padding and are exact from width 3 |
| `StmlLayoutProofs.CodeIsExactIff` | src/markup/layout.rs:519-563 | code blocks are exact if and only if they get at least 5 cells |
| `StmlLayout.ColumnWidths` | src/markup/layout.rs:423-444 | fixed columns clamped, the rest shared out, leftovers first |
| `StmlLayoutProofs.ColumnsFillIff` | src/markup/layout.rs:423-444 | the columns of any row fit if and only if the fixed ones leave a cell for each flexible one or there is one column alone; when they fill it exactly is stated with and without flexible columns |
| `StmlLayoutProofs.RowLinesFitIff` | src/markup/layout.rs:382-454 | so the merged lines of any row whose children fit their columns fit the row under the same condition, and only then |
| `StmlLayoutProofs.FullWidthsOverflow` | src/markup/layout.rs:423-454 | two columns of 100% in a row of 21 make lines of 41 cells |
| `StmlLayoutProofs.FlexibleRowIsExact` | src/markup/layout.rs:382-444 | columns without widths are at least a cell, differ by at most one, widest first, and with the gaps sum to the row |
| `StmlLayoutProofs.FlexibleRowLinesAreExact` | src/markup/layout.rs:382-454 | every merged line of such a row is exactly as wide as the row |
| `StmlLayoutProofs.MergedLineShows` | src/markup/layout.rs:760-778 | a merged line shows what its columns show on that row, in column order |
| `LayoutCache.Cache.LayoutCached` | src/markup/layout.rs:124-165 | returns what the layout would, and leaves the cache as specified, its byte count exact |
| `LayoutCache.RunIsLru` | src/markup/layout.rs:116-165 | after any calls: true results, no key twice, at most 128 entries, within a mebibyte unless one entry remains, keys exactly the most recently used, oldest first |
| `LayoutCache.EvictIsMinimal` | src/markup/layout.rs:151-158 | eviction drops the fewest oldest entries that make room |
| `LayoutCache.AskedIsKept` | src/markup/layout.rs:124-165 | the entry just asked for is kept, and asking again changes nothing |
| `Chat.ComposePrompt` | src/chat/mod.rs:153-257 | sections of new, changed and removed notes, answers and overall comment, each cut to 40 entries, and the watermark that would follow |
| `Chat.ChatPane.SendTurn` | src/app.rs:1972-2017 | only a dispatched turn moves the watermark; a refused one leaves everything but the transcript and the draft |
| `ChatProofs.NotesSyncIff` | src/chat/mod.rs:193-216 | after a dispatched turn the reader has exactly the clamped notes if and only if no note section was cut; the watermark claims them all |
| `ChatProofs.AnswersSyncIff` | src/chat/mod.rs:218-229 | the reader has every answer if and only if their section was not cut |
| `ChatProofs.RunKeepsReaderInSync` | src/chat/mod.rs:153-257 | over any run of accepted and refused turns, replaying the accepted ones gives the notes at the last of them and every answer |
| `ChatProofs.RunKeepsOverall` | src/chat/mod.rs:242-251 | the reader keeps the last overall comment there was: clearing it is never told |
| `ChatProofs.SameTextDifferentNotes` | src/chat/mod.rs:193-240 | the prompt's text names a note by anchor and body and a removed one by its id: two reviews can send the same text turn by turn and end with different notes |
| `ChatProofs.AddedNotesAreTold` | src/chat/mod.rs:193-240 | after notes were only added, a turn tells exactly those, in order, up to 40, and changes and removes nothing |
| `ChatProofs.GrowingNotesAreTold` | src/chat/mod.rs:193-240 | over a run of turns that only adds notes the lines told are the reviewer's notes, so there the text is enough |
| `ChatProofs.NothingIsSentTwice` | src/chat/mod.rs:193-251 | once accepted, the same notes are not sent again, not even the part that was cut |
| `ChatProofs.NotesAreKnown` | src/chat/mod.rs:100-108 | after an accepted turn the reader knows each note to its 2000th character, and whole if it has no more |
| `ChatProofs.ReplayIsLongestTail` | src/chat/mod.rs:171-191 | what is replayed is the answered part of the longest tail within the turn and character limits, oldest first |
| `Migration.Document.MoveLegacyKeys` | src/config/migrate.rs:70-132 | the two loops move the flat keys and the custom theme, and report what moved |
| `MigrationProofs.LastSpellingWins` | src/config/model.rs:341-475 | the section key that the table of moves gives for a flat key sets the same setting and beats it, and it beats earlier files; both spellings of the transparent background go to one place |
| `MigrationProofs.SettingsAreKeptIff` | src/config/migrate.rs:70-132 | for any file the loader accepts, sections inline or not, the settings loaded over any earlier ones are the same before and after if and only if transparent spellings do not clash, patterns are in one place, no key is lost to an inline section and no inline theme says anything |
| `MigrationProofs.MeaningIsKeptIff` | src/config/migrate.rs:70-132 | reading the file, errors included, gives the same before and after if and only if spellings and patterns do not clash, no key is lost to an inline section, and the theme is not written inline |
| `MigrationProofs.StaysAcceptedIff` | src/config/load.rs:265-305 | the loader still accepts the migrated file if and only if its theme was not an inline table |
| `MigrationProofs.OthersKept` | src/config/model.rs:341-475 | every setting but the transparent background and the patterns is loaded the same unless an inline table is in the way |
| `MigrationProofs.MigratesOnce` | src/config/migrate.rs:70-132 | for any file a second migration changes and reports nothing |
| `MigrationProofs.ReportIsComplete` | src/config/migrate.rs:70-132 | exactly the flat keys that found a table are reported, in table order, and the custom theme if it moved |
| `MigrationProofs.LostKeyShows` | src/config/migrate.rs:102-107 | a flat key whose inline section lacks it is in the migrated file nowhere, and over some earlier settings the loader sees the difference |
| `MigrationProofs.InlineSectionWithKeyKeepsIt` | src/config/migrate.rs:102-112 | an inline section that has the key keeps it, and nothing is lost |
| `MigrationProofs.InlineSectionLosesKey` | src/config/migrate.rs:102-107 | `mode = ..` beside `view = {}` is an accepted file whose only fault is the lost key |
| `MigrationProofs.InlineThemeIsLost` | src/config/migrate.rs:73-80 | `theme = { name = "x" }` is an accepted file whose only fault is its inline theme |
| `MigrationProofs.SpellingsDisagree` | src/config/migrate.rs:15-16 | a file whose only fault is the transparent background in both spellings |
| `MigrationProofs.PatternsInBoth` | src/config/migrate.rs:30 | a file whose only fault is patterns both flat and in the section |
| `Version.NormalizedText` | src/startup_notice.rs:303-318 | the printing loop |
| `VersionProofs.ParseIff` | src/startup_notice.rs:272-318 | a source parses to a version exactly when, without `v` and metadata, it is that valid version printed |
| `VersionProofs.VersionRoundTrip` | src/startup_notice.rs:272-318 | a printed version parses back, with or without `v` and metadata |
| `VersionProofs.ReleasesAreOrdered` | src/startup_notice.rs:321-350 | the order is total, transitive and consistent with equality |
| `VersionProofs.Precedence` | src/startup_notice.rs:321-350 | versions compare by major, then minor, then patch, then a release above its prereleases, then prereleases, as in section 11 of SemVer 2.0.0 |
| `VersionProofs.PrereleaseOrder` | src/startup_notice.rs:341-350 | prereleases compare at their first difference, the longer greater when one runs out, as in section 11 of SemVer 2.0.0 |
| `VersionProofs.UpdateIsBest` | src/startup_notice.rs:145-168 | the update offered is strictly newer, unbeaten in the preferred class, and offered exactly when some candidate is newer |
| `VersionProofs.NoticeIff` | src/startup_notice.rs:145-168 | there is a notice exactly when the installed version can be read and a line of remote tags names a newer one; it names the best such version |

## Left out

- The terminal, mouse, drawing, clipboard, tmux, editor and pager processes, session daemon, HTTP and the GitHub, Linear and pi commands: input, output and foreign calls.
- The diff parser and the change map are not part of this model; a diff is a value with files, hunks and lines.
- Unicode width tables, case folding and the word differ are parameters; widths of strings are sums over characters.
- Machine integers: line numbers, heights and offsets are unbounded, so saturating operations are exact; versions keep their 64-bit limit.
- Strings are sequences of characters: offsets and size limits the source keeps in UTF-8 bytes are in characters in the markup parser, and a parameter in the layout cache.
- Real threads and time: workers report in any order as steps; jobs do not panic, and a spawn may fail.
- `Controller.ReviewController.Apply`: actions that are only forwarded are one value with one effect, and review progress is modelled on its own (`Progress`), not as a field of the controller.
- `StmlRoundTrip.RoundTrip`: texts are sanitized and free of markup and entities, no two adjacent, as the parser would join them.
- `Emphasis.EmphasisIsExact`: the ratio of changed characters is a real number; the source divides in floating point.
- `Controller.ReviewController.SetNotes`: stands for every change of notes, drafts, threads, questions and answers, which all mark the controller dirty and rebuild; card headings and markup cards are left out.
- `Controller.ReviewController.ToggleContextTarget`: file ids are distinct, as they are built from paths; two files under one id would share a context.
- The controller's inputs and its cached plans are grouped in one value each instead of a field per option; snapshots for drawing, hit testing, text selection and sidebar entries are left out.
- `CommentTargetProofs.ComesBackIff`: paths are distinct; a thread with a renamed file's old path is looked up as in the source, but a published target always has the new one.
- `RowKeys.CacheIsWellKeyed`: lines are numbered as a diff numbers them, and files, notes and threads have ids of their own.
- `MigrationProofs.MeaningIsKeptIff`: an accepted file has known keys with values of their kinds; checks of a value itself (pattern syntax, colours, lengths) are left out. Values are text, pattern lists or theme palettes; other types, TOML syntax, comments, decoration and the backup file are left out, and so are `[chat]`, `[linear]` and the per-command sections, which no flat key moves to.
- `ChatProofs.RunKeepsReaderInSync`: the reader takes entries with their ids, which the text does not give for new and changed notes (`ChatProofs.SameTextDifferentNotes`).
- `ChatProofs.NotesSyncIff`: the same reader, for one turn.
- `StmlLayout.WrapSpans`: inline styling, lists, entities and the recursion over blocks are left out; frames, rows and wrapping are modelled on lines of styled spans.
- `StmlLayout.ColumnWidths`: percentages are whole numbers and floored exactly, where the source divides floating-point numbers.
- `LayoutCache.Cache.LayoutCached`: the mutex; calls are one after another.
- `Version.NormalizedText`: the runtime that queries tags, its timers and its state file.
- Theme tables, labels, help text, command-line mapping, path encoding, note ids and base64: easy members only.
