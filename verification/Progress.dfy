/** How much of a review has been read: the changed lines in order, and those already seen. */
module Progress {
  import opened DiffModel
  import opened Emphasis
  import opened Rows

  datatype ChangedKey = ChangedKey(fileId: string, side: Side, line: nat)

  datatype Snapshot = Snapshot(reviewed: nat, total: nat, percent: nat)

  // ---- The order of changed lines ---------------------------------------------------------

  function LineKey(fileId: string, line: DiffLine): seq<ChangedKey> {
    match line.kind
    case Addition => if line.newLine.Some? then [ChangedKey(fileId, New, line.newLine.value)] else []
    case Deletion => if line.oldLine.Some? then [ChangedKey(fileId, Old, line.oldLine.value)] else []
    case Context => []
  }

  function LineKeys(fileId: string, lines: seq<DiffLine>): seq<ChangedKey> {
    if lines == [] then [] else LineKeys(fileId, lines[..|lines| - 1]) + LineKey(fileId, lines[|lines| - 1])
  }

  function HunkKeys(fileId: string, hunks: seq<Hunk>): seq<ChangedKey> {
    if hunks == [] then [] else HunkKeys(fileId, hunks[..|hunks| - 1]) + LineKeys(fileId, hunks[|hunks| - 1].lines)
  }

  function FileKeys(files: seq<DiffFile>): seq<ChangedKey> {
    if files == [] then []
    else FileKeys(files[..|files| - 1]) + HunkKeys(files[|files| - 1].id, files[|files| - 1].hunks)
  }

  method ChangedKeys(fileId: string, hunks: seq<Hunk>) returns (keys: seq<ChangedKey>)
    ensures keys == HunkKeys(fileId, hunks)
  {
    keys := [];
    for j := 0 to |hunks|
      invariant keys == HunkKeys(fileId, hunks[..j])
    {
      assert hunks[..j + 1][..j] == hunks[..j];
      var lines, before := hunks[j].lines, keys;
      for k := 0 to |lines|
        invariant keys == before + LineKeys(fileId, lines[..k])
      {
        hide LineKey, HunkKeys;
        assert lines[..k + 1][..k] == lines[..k];
        keys := keys + LineKey(fileId, lines[k]);
      }
      assert lines[..|lines|] == lines;
    }
    assert hunks[..|hunks|] == hunks;
  }

  /** Each key's place in the order; the last one, should a key occur twice. */
  function Ordinals(ordered: seq<ChangedKey>): map<ChangedKey, nat> {
    if ordered == [] then map[] else Ordinals(ordered[..|ordered| - 1])[ordered[|ordered| - 1] := |ordered| - 1]
  }

  function AsSet(keys: seq<ChangedKey>): set<ChangedKey> { set i | 0 <= i < |keys| :: keys[i] }

  function OfFile(keys: set<ChangedKey>, fileId: string): set<ChangedKey> { set k | k in keys && k.fileId == fileId }

  /** How far into the order the keys reach: one past the last of them, or 0 when none is known. */
  function Reach(ordinal: map<ChangedKey, nat>, keys: seq<ChangedKey>): nat {
    if keys == [] then 0 else
      var before, last := Reach(ordinal, keys[..|keys| - 1]), keys[|keys| - 1];
      if last in ordinal && ordinal[last] + 1 > before then ordinal[last] + 1 else before
  }

  class ReviewProgress {
    var ordered: seq<ChangedKey>
    var ordinal: map<ChangedKey, nat>
    var reviewed: set<ChangedKey>

    ghost predicate Valid() reads this { ordinal == Ordinals(ordered) && reviewed <= AsSet(ordered) }

    constructor (files: seq<DiffFile>)
      ensures Valid() && ordered == FileKeys(files) && reviewed == {}
    {
      reviewed := {};
      new;
      RebuildOrder(files);
    }

    method RebuildOrder(files: seq<DiffFile>)
      modifies this`ordered, this`ordinal
      ensures ordered == FileKeys(files) && ordinal == Ordinals(ordered)
    {
      ordered := [];
      for i := 0 to |files|
        invariant ordered == FileKeys(files[..i])
      {
        assert files[..i + 1][..i] == files[..i];
        var keys := ChangedKeys(files[i].id, files[i].hunks);
        ordered := ordered + keys;
      }
      assert files[..|files|] == files;
      ordinal := map[];
      for i := 0 to |ordered|
        invariant ordered == FileKeys(files)
        invariant ordinal == Ordinals(ordered[..i])
      {
        hide FileKeys;
        assert ordered[..i + 1][..i] == ordered[..i];
        ordinal := ordinal[ordered[i] := i];
      }
      assert ordered[..|ordered|] == ordered;
    }

    /** Seeing some lines reviews everything up to the furthest of them; says whether that was news. */
    method ObserveThrough(keys: seq<ChangedKey>) returns (changed: bool)
      requires Valid()
      modifies this`reviewed
      ensures Valid()
      ensures Reach(ordinal, keys) <= |ordered|
      ensures reviewed == old(reviewed) + AsSet(ordered[..Reach(ordinal, keys)])
      ensures changed <==> reviewed != old(reviewed)
    {
      var reach := 0;
      for i := 0 to |keys|
        invariant reach == Reach(ordinal, keys[..i])
      {
        assert keys[..i + 1][..i] == keys[..i];
        if keys[i] in ordinal && ordinal[keys[i]] + 1 > reach {
          reach := ordinal[keys[i]] + 1;
        }
      }
      assert keys[..|keys|] == keys;
      ReachInOrder(ordered, keys);
      if reach == 0 {
        return false;
      }
      var before := |reviewed|;
      ghost var was := reviewed;
      reviewed := reviewed + AsSet(ordered[..reach]);
      Grows(was, reviewed);
      changed := |reviewed| != before;
    }

    method MarkFileReviewed(fileId: string) returns (changed: bool)
      requires Valid()
      modifies this`reviewed
      ensures Valid()
      ensures reviewed == old(reviewed) + OfFile(AsSet(ordered), fileId)
      ensures IsFileReviewed(fileId)
      ensures changed <==> reviewed != old(reviewed)
    {
      var before := |reviewed|;
      ghost var was := reviewed;
      reviewed := reviewed + OfFile(AsSet(ordered), fileId);
      Grows(was, reviewed);
      changed := |reviewed| != before;
    }

    predicate IsFileReviewed(fileId: string) reads this { OfFile(AsSet(ordered), fileId) <= reviewed }

    /** A reload keeps what is still there of what was reviewed. */
    method ReplaceFiles(files: seq<DiffFile>)
      requires Valid()
      modifies this
      ensures Valid() && ordered == FileKeys(files)
      ensures reviewed == old(reviewed) * AsSet(ordered)
    {
      RebuildOrder(files);
      OrdinalKeys(ordered);
      reviewed := set k | k in reviewed && k in ordinal;
    }

    function Measure(): Snapshot reads this {
      var total := |ordered|;
      var count := if |reviewed| < total then |reviewed| else total;
      Snapshot(count, total, if total == 0 then 100 else count * 100 / total)
    }

    /** The percentage shown is 100 only when every changed line has been reviewed. */
    lemma FullMeansAllReviewed()
      requires Valid() && forall i, j :: 0 <= i < j < |ordered| ==> ordered[i] != ordered[j]
      ensures Measure().reviewed == |reviewed| <= Measure().total && Measure().percent <= 100
      ensures Measure().percent == 100 <==> reviewed == AsSet(ordered)
    {
      SizeOfSet(ordered);
      Grows(reviewed, AsSet(ordered));
      if ordered != [] { Percentage(|reviewed|, |ordered|); }
    }
  }

  lemma Percentage(count: nat, total: nat)
    requires count <= total && total > 0
    ensures count * 100 / total <= 100
    ensures count * 100 / total == 100 <==> count == total
  {
    if count < total { assert count * 100 < 100 * total; }
  }

  lemma Grows(a: set<ChangedKey>, b: set<ChangedKey>)
    requires a <= b
    ensures |a| <= |b| && (|a| == |b| <==> a == b)
  {
    assert b == a + (b - a);
    assert |b| == |a| + |b - a|;
  }

  lemma {:induction false} SizeOfSet(keys: seq<ChangedKey>)
    requires forall i, j :: 0 <= i < j < |keys| ==> keys[i] != keys[j]
    ensures |AsSet(keys)| == |keys|
  {
    if keys != [] {
      SizeOfSet(keys[..|keys| - 1]);
      AsSetSnoc(keys[..|keys| - 1], keys[|keys| - 1]);
      assert keys == keys[..|keys| - 1] + [keys[|keys| - 1]];
    }
  }

  lemma AsSetSnoc(keys: seq<ChangedKey>, last: ChangedKey)
    ensures AsSet(keys + [last]) == AsSet(keys) + {last}
  {
    var all := keys + [last];
    forall k | k in AsSet(keys) ensures k in AsSet(all) {
      var i :| 0 <= i < |keys| && keys[i] == k;
      assert all[i] == k;
    }
    assert all[|keys|] == last;
  }

  lemma {:induction false} OrdinalKeys(ordered: seq<ChangedKey>)
    ensures Ordinals(ordered).Keys == AsSet(ordered)
    ensures forall k :: k in Ordinals(ordered) ==>
      Ordinals(ordered)[k] < |ordered| && ordered[Ordinals(ordered)[k]] == k
    ensures forall i :: 0 <= i < |ordered| ==> ordered[i] in Ordinals(ordered) && i <= Ordinals(ordered)[ordered[i]]
  {
    if ordered != [] {
      var front, last := ordered[..|ordered| - 1], ordered[|ordered| - 1];
      OrdinalKeys(front);
      AsSetSnoc(front, last);
      assert ordered == front + [last];
    }
  }

  lemma {:induction false} ReachInOrder(ordered: seq<ChangedKey>, keys: seq<ChangedKey>)
    ensures Reach(Ordinals(ordered), keys) <= |ordered|
  {
    OrdinalKeys(ordered);
    if keys != [] { ReachInOrder(ordered, keys[..|keys| - 1]); }
  }

  /** Observing reaches every line at or before any line seen, and nothing after the last of them. */
  lemma {:induction false} ReachIsFurthest(ordered: seq<ChangedKey>, keys: seq<ChangedKey>)
    ensures var reach := Reach(Ordinals(ordered), keys);
      && (forall i :: 0 <= i < |ordered| && ordered[i] in keys ==> i < reach)
      && (reach > 0 ==> reach <= |ordered| && ordered[reach - 1] in keys)
  {
    OrdinalKeys(ordered);
    if keys != [] {
      var front, last := keys[..|keys| - 1], keys[|keys| - 1];
      ReachIsFurthest(ordered, front);
      assert keys == front + [last];
    }
  }

  // ---- What a row shows -------------------------------------------------------------------

  function CellKeys(fileId: string, cell: ReviewCell): set<ChangedKey> {
    match cell.kind
    case AdditionCell => if cell.newLine.Some? then {ChangedKey(fileId, New, cell.newLine.value)} else {}
    case DeletionCell => if cell.oldLine.Some? then {ChangedKey(fileId, Old, cell.oldLine.value)} else {}
    case _ => {}
  }

  function RowKeys(fileId: string, row: LineRow): set<ChangedKey> {
    match row
    case Stack(_, cell) => CellKeys(fileId, cell)
    case Split(_, left, right) => CellKeys(fileId, left) + CellKeys(fileId, right)
  }

  function AllRowKeys(fileId: string, rows: seq<LineRow>): set<ChangedKey> {
    set i, k | 0 <= i < |rows| && k in RowKeys(fileId, rows[i]) :: k
  }

  lemma {:induction false} LineKeysHold(fileId: string, lines: seq<DiffLine>)
    ensures forall key :: key in LineKeys(fileId, lines) <==>
      exists line :: line in lines && key in LineKey(fileId, line)
  {
    if lines != [] {
      hide LineKey;
      var front, last := lines[..|lines| - 1], lines[|lines| - 1];
      LineKeysHold(fileId, front);
      assert lines == front + [last];
    }
  }

  /** Seeing all of a hunk's rows, split or stacked, is seeing exactly its changed lines. */
  lemma RowsShowChanges(layout: Layout, diff: Differ, fileId: string, hunk: nat, lines: seq<DiffLine>)
    requires SoundDiffer(diff)
    ensures forall key :: key in AllRowKeys(fileId, HunkRows(layout, diff, fileId, hunk, lines)) <==>
      key in LineKeys(fileId, lines)
  {
    hide HunkRows;
    var rows := HunkRows(layout, diff, fileId, hunk, lines);
    LineKeysHold(fileId, lines);
    forall key | key in AllRowKeys(fileId, rows) ensures key in LineKeys(fileId, lines) {
      var i :| 0 <= i < |rows| && key in RowKeys(fileId, rows[i]);
      var cell, side := ChangedCell(fileId, rows[i], key);
      var line := LineOfCell(layout, diff, fileId, hunk, lines, side, i, cell);
      assert key in LineKey(fileId, line);
    }
    forall key | key in LineKeys(fileId, lines) ensures key in AllRowKeys(fileId, rows) {
      var line :| line in lines && key in LineKey(fileId, line);
      var i, cell := CellOfLine(layout, diff, fileId, hunk, lines, key.side, line);
      assert key in RowKeys(fileId, rows[i]);
    }
  }

  lemma ChangedCell(fileId: string, row: LineRow, key: ChangedKey) returns (cell: ReviewCell, side: Side)
    requires key in RowKeys(fileId, row)
    ensures cell in RowCells(row, side) && key in CellKeys(fileId, cell)
  {
    if row.Stack? {
      cell, side := row.cell, if row.cell.kind == DeletionCell then Old else New;
    } else if key in CellKeys(fileId, row.left) {
      cell, side := row.left, Old;
    } else {
      cell, side := row.right, New;
    }
  }
}
