/** Unchanged gaps between hunks: deriving them, choosing one to toggle, expanding one from source. */
module Context {
  import opened Text
  import opened Sanitize
  import opened DiffModel

  datatype GapPosition = Before | Trailing

  datatype GapKey = GapKey(fileId: string, position: GapPosition, hunkIndex: nat)

  /** An inclusive range of line numbers. */
  datatype LineRange = LineRange(start: nat, end: nat)

  datatype CollapsedGap = CollapsedGap(key: GapKey, oldRange: LineRange, newRange: LineRange) {
    function Range(side: Side): LineRange { if side == Old then oldRange else newRange }

    function LineCount(side: Side): nat { Monus(Range(side).end, Range(side).start) + 1 }
  }

  datatype ContextLine = ContextLine(oldLine: nat, newLine: nat, text: string)

  datatype SourceFailure = Unavailable | Missing | TooLarge | NonUtf8 | Io | Command | ShortSource

  datatype LoadedSource = LoadedSource(side: Side, text: string)

  datatype FileContext = FileContext(expanded: set<GapKey>, source: Option<Result<LoadedSource, SourceFailure>>)

  // ---- Deriving gaps ----------------------------------------------------------------------

  /** First line of each side not yet accounted for. */
  datatype Cursors = Cursors(oldLine: nat, newLine: nat) {
    function On(side: Side): nat { if side == Old then oldLine else newLine }
  }

  function Advance(c: Cursors, hunk: Hunk): Cursors {
    Cursors(Max(c.oldLine, hunk.oldStart + Count(hunk, Old)), Max(c.newLine, hunk.newStart + Count(hunk, New)))
  }

  function CursorsAfter(hunks: seq<Hunk>): Cursors {
    if hunks == [] then Cursors(1, 1)
    else Advance(CursorsAfter(hunks[..|hunks| - 1]), hunks[|hunks| - 1])
  }

  function GapSize(c: Cursors, hunk: Hunk): nat {
    Min(Monus(hunk.oldStart, c.oldLine), Monus(hunk.newStart, c.newLine))
  }

  function MakeGap(key: GapKey, c: Cursors, count: nat): CollapsedGap
    requires count > 0
  {
    CollapsedGap(key, LineRange(c.oldLine, c.oldLine + (count - 1)), LineRange(c.newLine, c.newLine + (count - 1)))
  }

  function GapBefore(fileId: string, hunks: seq<Hunk>, k: nat): Option<CollapsedGap>
    requires k < |hunks|
  {
    var c := CursorsAfter(hunks[..k]);
    var count := GapSize(c, hunks[k]);
    if count > 0 then Some(MakeGap(GapKey(fileId, Before, k), c, count)) else None
  }

  function ToSeq<T>(o: Option<T>): seq<T> { if o.Some? then [o.value] else [] }

  function GapsBefore(fileId: string, hunks: seq<Hunk>, k: nat): seq<CollapsedGap>
    requires k <= |hunks|
  {
    if k == 0 then [] else GapsBefore(fileId, hunks, k - 1) + ToSeq(GapBefore(fileId, hunks, k - 1))
  }

  function TrailingGap(fileId: string, hunks: seq<Hunk>, sourceLength: Option<(Side, nat)>): Option<CollapsedGap> {
    if sourceLength.None? || hunks == [] then None else
      var (side, length) := sourceLength.value;
      var c := CursorsAfter(hunks);
      if c.On(side) <= length then
        Some(MakeGap(GapKey(fileId, Trailing, |hunks| - 1), c, Monus(length, c.On(side)) + 1))
      else None
  }

  function CollapsedGaps(fileId: string, hunks: seq<Hunk>, sourceLength: Option<(Side, nat)>): seq<CollapsedGap> {
    GapsBefore(fileId, hunks, |hunks|) + ToSeq(TrailingGap(fileId, hunks, sourceLength))
  }

  lemma CursorStep(hunks: seq<Hunk>, k: nat)
    requires k < |hunks|
    ensures CursorsAfter(hunks[..k + 1]) == Advance(CursorsAfter(hunks[..k]), hunks[k])
  {
    assert hunks[..k + 1][..k] == hunks[..k];
  }

  lemma GapsBeforeStep(fileId: string, hunks: seq<Hunk>, k: nat)
    requires k < |hunks|
    ensures GapsBefore(fileId, hunks, k + 1) == GapsBefore(fileId, hunks, k) + ToSeq(GapBefore(fileId, hunks, k))
  {
    hide GapBefore;
  }

  method DeriveCollapsedGaps(file: DiffFile, sourceLength: Option<(Side, nat)>) returns (gaps: seq<CollapsedGap>)
    ensures gaps == CollapsedGaps(file.id, file.hunks, sourceLength)
  {
    gaps := [];
    var oldCursor: nat, newCursor: nat := 1, 1;
    for k := 0 to |file.hunks|
      invariant gaps == GapsBefore(file.id, file.hunks, k)
      invariant Cursors(oldCursor, newCursor) == CursorsAfter(file.hunks[..k])
    {
      hide SideLines, CursorsAfter, GapsBefore;
      GapsBeforeStep(file.id, file.hunks, k);
      var hunk := file.hunks[k];
      CursorStep(file.hunks, k);
      var oldGap, newGap := Monus(hunk.oldStart, oldCursor), Monus(hunk.newStart, newCursor);
      var count := Min(oldGap, newGap);
      if count > 0 {
        gaps := gaps + [MakeGap(GapKey(file.id, Before, k), Cursors(oldCursor, newCursor), count)];
      }
      oldCursor := Max(oldCursor, hunk.oldStart + Count(hunk, Old));
      newCursor := Max(newCursor, hunk.newStart + Count(hunk, New));
    }
    hide CursorsAfter, GapsBefore;
    assert file.hunks[..|file.hunks|] == file.hunks;
    if sourceLength.Some? && |file.hunks| > 0 {
      var (side, length) := sourceLength.value;
      var sideCursor := if side == Old then oldCursor else newCursor;
      if sideCursor <= length {
        var count := Monus(length, sideCursor) + 1;
        gaps := gaps + [MakeGap(GapKey(file.id, Trailing, |file.hunks| - 1), Cursors(oldCursor, newCursor), count)];
      }
    }
  }

  // ---- Looking gaps up --------------------------------------------------------------------

  function FindBefore(gaps: seq<CollapsedGap>, k: nat): Option<CollapsedGap> {
    if gaps == [] then None
    else if gaps[0].key.position == Before && gaps[0].key.hunkIndex == k then Some(gaps[0])
    else FindBefore(gaps[1..], k)
  }

  function FindTrailing(gaps: seq<CollapsedGap>): Option<CollapsedGap> {
    if gaps == [] then None
    else if gaps[0].key.position == Trailing then Some(gaps[0])
    else FindTrailing(gaps[1..])
  }

  function FindFrom(gaps: seq<CollapsedGap>, selected: nat): Option<CollapsedGap> {
    if gaps == [] then None
    else if gaps[0].key.position == Before && gaps[0].key.hunkIndex >= selected then Some(gaps[0])
    else FindFrom(gaps[1..], selected)
  }

  function SelectGapForToggle(gaps: seq<CollapsedGap>, selected: nat): Option<GapKey> {
    var found := if FindFrom(gaps, selected).Some? then FindFrom(gaps, selected) else FindTrailing(gaps);
    if found.Some? then Some(found.value.key) else None
  }

  lemma {:induction false} FindSkips(a: seq<CollapsedGap>, b: seq<CollapsedGap>, k: nat)
    ensures (forall i :: 0 <= i < |a| ==> !(a[i].key.position == Before && a[i].key.hunkIndex == k))
      ==> FindBefore(a + b, k) == FindBefore(b, k)
    ensures (forall i :: 0 <= i < |a| ==> a[i].key.position != Trailing) ==> FindTrailing(a + b) == FindTrailing(b)
    ensures (forall i :: 0 <= i < |a| ==> !(a[i].key.position == Before && a[i].key.hunkIndex >= k))
      ==> FindFrom(a + b, k) == FindFrom(b, k)
  {
    if a == [] {
      assert a + b == b;
    } else {
      assert (a + b)[0] == a[0] && (a + b)[1..] == a[1..] + b;
      FindSkips(a[1..], b, k);
    }
  }

  lemma {:induction false} FindStops(a: seq<CollapsedGap>, b: seq<CollapsedGap>, k: nat)
    ensures FindBefore(a, k).Some? ==> FindBefore(a + b, k) == FindBefore(a, k)
    ensures FindFrom(a, k).Some? ==> FindFrom(a + b, k) == FindFrom(a, k)
  {
    if a != [] {
      assert (a + b)[0] == a[0] && (a + b)[1..] == a[1..] + b;
      FindStops(a[1..], b, k);
    }
  }

  lemma {:induction false} GapsBeforeKeys(fileId: string, hunks: seq<Hunk>, n: nat)
    requires n <= |hunks|
    ensures forall i :: 0 <= i < |GapsBefore(fileId, hunks, n)| ==>
      var key := GapsBefore(fileId, hunks, n)[i].key;
      key.position == Before && key.hunkIndex < n && key.fileId == fileId
      && GapBefore(fileId, hunks, key.hunkIndex) == Some(GapsBefore(fileId, hunks, n)[i])
  {
    if n > 0 { GapsBeforeKeys(fileId, hunks, n - 1); }
  }

  /** Each hunk finds the gap in front of it, and no other, in the derived list. */
  lemma {:induction false} FindDerived(fileId: string, hunks: seq<Hunk>, n: nat, rest: seq<CollapsedGap>, k: nat)
    requires k < n <= |hunks|
    requires forall i :: 0 <= i < |rest| ==> rest[i].key.position != Before || rest[i].key.hunkIndex >= n
    ensures FindBefore(GapsBefore(fileId, hunks, n) + rest, k) == GapBefore(fileId, hunks, k)
  {
    var front, last := GapsBefore(fileId, hunks, n - 1), ToSeq(GapBefore(fileId, hunks, n - 1));
    assert front + last + rest == front + (last + rest);
    GapsBeforeKeys(fileId, hunks, n - 1);
    if k == n - 1 {
      FindSkips(front, last + rest, k);
      FindSkips(last, rest, k);
      FindSkips(rest, [], k);
      assert rest + [] == rest;
    } else {
      FindDerived(fileId, hunks, n - 1, last + rest, k);
    }
  }

  lemma FindInCollapsed(fileId: string, hunks: seq<Hunk>, sourceLength: Option<(Side, nat)>, k: nat)
    requires k < |hunks|
    ensures FindBefore(CollapsedGaps(fileId, hunks, sourceLength), k) == GapBefore(fileId, hunks, k)
    ensures FindTrailing(CollapsedGaps(fileId, hunks, sourceLength)) == TrailingGap(fileId, hunks, sourceLength)
  {
    var last := ToSeq(TrailingGap(fileId, hunks, sourceLength));
    FindDerived(fileId, hunks, |hunks|, last, k);
    GapsBeforeKeys(fileId, hunks, |hunks|);
    FindSkips(GapsBefore(fileId, hunks, |hunks|), last, k);
  }

  // ---- The gaps and the hunks partition the file ------------------------------------------

  function Numbers(start: nat, count: nat): (s: seq<nat>)
    ensures |s| == count
  {
    seq(count, i requires 0 <= i < count => start + i)
  }

  lemma SpanConcat(start: nat, a: nat, b: nat)
    ensures Numbers(start, a) + Numbers(start + a, b) == Numbers(start, a + b)
  {
  }

  function GapSpan(gap: Option<CollapsedGap>, side: Side): seq<nat> {
    if gap.None? then [] else Numbers(gap.value.Range(side).start, gap.value.LineCount(side))
  }

  /** Line numbers of one side in the order the plan lays out gaps and the first n hunks. */
  function Numbered(gaps: seq<CollapsedGap>, hunks: seq<Hunk>, n: nat, side: Side): seq<nat>
    requires n <= |hunks|
  {
    if n == 0 then [] else
      var gap, hunk := FindBefore(gaps, n - 1), hunks[n - 1];
      Numbered(gaps, hunks, n - 1, side) + GapSpan(gap, side) + Numbers(Start(hunk, side), Count(hunk, side))
  }

  /** Hunks do not run backwards on this side. */
  ghost predicate Ordered(hunks: seq<Hunk>, side: Side) {
    forall k :: 0 <= k < |hunks| ==> CursorsAfter(hunks[..k]).On(side) <= Start(hunks[k], side)
  }

  /** The other side leaves at least as many unchanged lines before every hunk as this one. */
  ghost predicate Aligned(hunks: seq<Hunk>, side: Side) {
    forall k :: 0 <= k < |hunks| ==> AlignedAt(hunks, k, side)
  }

  ghost predicate AlignedAt(hunks: seq<Hunk>, k: nat, side: Side)
    requires k < |hunks|
  {
    var c, other := CursorsAfter(hunks[..k]), if side == Old then New else Old;
    Monus(Start(hunks[k], side), c.On(side)) <= Monus(Start(hunks[k], other), c.On(other))
  }

  /** Laying `gap` lines and then a hunk's lines after what covers at most 1..next-1. */
  lemma ExtendSpan(numbers: seq<nat>, next: nat, gap: nat, start: nat, count: nat)
    requires 1 <= next && |numbers| <= next - 1 && next + gap <= start
    requires |numbers| == next - 1 ==> numbers == Numbers(1, next - 1)
    ensures var after := numbers + Numbers(next, gap) + Numbers(start, count);
      && |after| <= start + count - 1
      && (|after| == start + count - 1 <==> |numbers| == next - 1 && gap == start - next)
      && (|after| == start + count - 1 ==> after == Numbers(1, start + count - 1))
  {
    if |numbers| == next - 1 && gap == start - next {
      SpanConcat(1, next - 1, gap);
      SpanConcat(1, start - 1, count);
    }
  }

  lemma GapSpanBefore(fileId: string, hunks: seq<Hunk>, k: nat, side: Side)
    requires k < |hunks|
    ensures var c := CursorsAfter(hunks[..k]);
      GapSpan(GapBefore(fileId, hunks, k), side) == Numbers(c.On(side), GapSize(c, hunks[k]))
  {
  }

  lemma NextCursor(hunks: seq<Hunk>, n: nat, side: Side)
    requires 0 < n <= |hunks| && Ordered(hunks, side)
    ensures CursorsAfter(hunks[..n]).On(side) == Start(hunks[n - 1], side) + Count(hunks[n - 1], side)
  {
    assert hunks[..n][..n - 1] == hunks[..n - 1];
  }

  ghost predicate AlignedBefore(hunks: seq<Hunk>, n: nat, side: Side)
    requires n <= |hunks|
  {
    forall k :: 0 <= k < n ==> AlignedAt(hunks, k, side)
  }

  lemma NumberedStep(fileId: string, hunks: seq<Hunk>, length: Option<(Side, nat)>, n: nat, side: Side)
    requires 0 < n <= |hunks| && Ordered(hunks, side)
    ensures var gaps := CollapsedGaps(fileId, hunks, length);
      var c, hunk := CursorsAfter(hunks[..n - 1]), hunks[n - 1];
      && Numbered(gaps, hunks, n, side) == Numbered(gaps, hunks, n - 1, side)
           + Numbers(c.On(side), GapSize(c, hunk)) + Numbers(Start(hunk, side), Count(hunk, side))
      && c.On(side) + GapSize(c, hunk) <= Start(hunk, side)
      && (AlignedBefore(hunks, n, side)
          <==> AlignedBefore(hunks, n - 1, side) && GapSize(c, hunk) == Start(hunk, side) - c.On(side))
  {
    hide CollapsedGaps, CursorsAfter, Numbers, SideLines;
    FindInCollapsed(fileId, hunks, length, n - 1);
    GapSpanBefore(fileId, hunks, n - 1, side);
    assert AlignedBefore(hunks, n, side) <==> AlignedBefore(hunks, n - 1, side) && AlignedAt(hunks, n - 1, side);
  }

  lemma {:induction false} NumberedPrefix(fileId: string, hunks: seq<Hunk>, length: Option<(Side, nat)>, n: nat,
                                          side: Side)
    requires n <= |hunks| && Ordered(hunks, side)
    ensures var numbers := Numbered(CollapsedGaps(fileId, hunks, length), hunks, n, side);
      var next := CursorsAfter(hunks[..n]).On(side);
      && 1 <= next && |numbers| <= next - 1
      && (|numbers| == next - 1 <==> AlignedBefore(hunks, n, side))
      && (|numbers| == next - 1 ==> numbers == Numbers(1, next - 1))
  {
    hide CollapsedGaps, SideLines, FindBefore;
    if n > 0 {
      hide *;
      NumberedPrefix(fileId, hunks, length, n - 1, side);
      NumberedStep(fileId, hunks, length, n, side);
      NextCursor(hunks, n, side);
      var c, hunk := CursorsAfter(hunks[..n - 1]), hunks[n - 1];
      ExtendSpan(Numbered(CollapsedGaps(fileId, hunks, length), hunks, n - 1, side), c.On(side),
                 GapSize(c, hunk), Start(hunk, side), Count(hunk, side));
    }
  }

  /**
   * For ordered hunks of a source at least as long as they reach, the gaps and the hunks cover lines
   * 1..length of a side once each and in order if and only if the hunks are aligned on that side.
   */
  lemma GapsPartition(fileId: string, hunks: seq<Hunk>, side: Side, length: nat)
    requires hunks != [] && Ordered(hunks, side) && CursorsAfter(hunks).On(side) <= length + 1
    ensures var gaps := CollapsedGaps(fileId, hunks, Some((side, length)));
      Numbered(gaps, hunks, |hunks|, side) + GapSpan(FindTrailing(gaps), side) == Numbers(1, length)
      <==> Aligned(hunks, side)
  {
    hide CursorsAfter, CollapsedGaps, Numbered, GapSpan, FindBefore, FindTrailing, SideLines;
    var gaps := CollapsedGaps(fileId, hunks, Some((side, length)));
    NumberedPrefix(fileId, hunks, Some((side, length)), |hunks|, side);
    assert hunks[..|hunks|] == hunks;
    FindInCollapsed(fileId, hunks, Some((side, length)), 0);
    var next := CursorsAfter(hunks).On(side);
    SpanConcat(1, next - 1, length + 1 - next);
    TrailingSpan(fileId, hunks, side, length);
  }

  lemma TrailingSpan(fileId: string, hunks: seq<Hunk>, side: Side, length: nat)
    requires hunks != [] && CursorsAfter(hunks).On(side) <= length + 1
    ensures var next := CursorsAfter(hunks).On(side);
      GapSpan(TrailingGap(fileId, hunks, Some((side, length))), side) == Numbers(next, length + 1 - next)
  {
  }

  // ---- Expanding a gap --------------------------------------------------------------------

  function SourceLines(text: string): seq<string> { Lines(NormalizeNewlines(text)) }

  function ExpandGapLines(gap: CollapsedGap, text: string, side: Side): Result<seq<ContextLine>, SourceFailure> {
    var lines := SourceLines(text);
    var start, count := Monus(gap.Range(side).start, 1), gap.LineCount(side);
    if start + count > |lines| then Err(ShortSource)
    else Ok(seq(count, i requires 0 <= i < count =>
      ContextLine(gap.oldRange.start + i, gap.newRange.start + i, SanitizeLine(lines[start + i]))))
  }

  function SourceLength(context: FileContext): Option<(Side, nat)> {
    if context.source.Some? && context.source.value.Ok?
    then Some((context.source.value.value.side, |SourceLines(context.source.value.value.text)|)) else None
  }

  function GapsOf(file: DiffFile, context: Option<FileContext>): seq<CollapsedGap> {
    CollapsedGaps(file.id, file.hunks, if context.Some? then SourceLength(context.value) else None)
  }
}
