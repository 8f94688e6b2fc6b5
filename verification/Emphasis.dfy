/** Word emphasis inside a changed pair of lines, over an arbitrary edit script between them. */
module Emphasis {
  import opened Text

  datatype Span = Span(text: string, emphasized: bool)

  datatype Edit = Equal(text: string) | Delete(text: string) | Insert(text: string)

  /** A text differ: turns an old and a new line into an edit script. */
  type Differ = (string, string) -> seq<Edit>

  function OldText(script: seq<Edit>): string {
    if script == [] then [] else
      var last := script[|script| - 1];
      OldText(script[..|script| - 1]) + (if last.Insert? then [] else last.text)
  }

  function NewText(script: seq<Edit>): string {
    if script == [] then [] else
      var last := script[|script| - 1];
      NewText(script[..|script| - 1]) + (if last.Delete? then [] else last.text)
  }

  /** The script's kept and removed parts spell the old line, its kept and inserted parts the new one. */
  ghost predicate SoundDiffer(diff: Differ) {
    forall a, b :: OldText(diff(a, b)) == a && NewText(diff(a, b)) == b
  }

  predicate IsBlank(s: string) {
    forall i :: 0 <= i < |s| ==> IsWhitespace(s[i])
  }

  function SpansText(spans: seq<Span>): string {
    if spans == [] then [] else SpansText(spans[..|spans| - 1]) + spans[|spans| - 1].text
  }

  function PushSpan(spans: seq<Span>, text: string, emphasized: bool): seq<Span> {
    if text == [] then spans
    else if spans != [] && spans[|spans| - 1].emphasized == emphasized then
      spans[..|spans| - 1] + [Span(spans[|spans| - 1].text + text, emphasized)]
    else spans + [Span(text, emphasized)]
  }

  function OldSpans(script: seq<Edit>): seq<Span> {
    if script == [] then [] else
      var last, front := script[|script| - 1], OldSpans(script[..|script| - 1]);
      if last.Insert? then front else PushSpan(front, last.text, last.Delete? && !IsBlank(last.text))
  }

  function NewSpans(script: seq<Edit>): seq<Span> {
    if script == [] then [] else
      var last, front := script[|script| - 1], NewSpans(script[..|script| - 1]);
      if last.Delete? then front else PushSpan(front, last.text, last.Insert? && !IsBlank(last.text))
  }

  function ChangedRuns(spans: seq<Span>): nat {
    if spans == [] then 0
    else ChangedRuns(spans[..|spans| - 1]) + (if spans[|spans| - 1].emphasized then 1 else 0)
  }

  function Ink(s: string): nat {
    if s == [] then 0 else (if IsWhitespace(s[0]) then 0 else 1) + Ink(s[1..])
  }

  function TotalInk(spans: seq<Span>): nat {
    if spans == [] then 0 else TotalInk(spans[..|spans| - 1]) + Ink(spans[|spans| - 1].text)
  }

  function ChangedInk(spans: seq<Span>): nat {
    if spans == [] then 0 else
      var last := spans[|spans| - 1];
      ChangedInk(spans[..|spans| - 1]) + (if last.emphasized then Ink(last.text) else 0)
  }

  /** More than three fifths of the visible characters changed. */
  predicate MostlyChanged(spans: seq<Span>) {
    5 * ChangedInk(spans) > 3 * TotalInk(spans)
  }

  function Flatten(spans: seq<Span>): seq<Span> {
    if spans == [] then [] else PushSpan(Flatten(spans[..|spans| - 1]), spans[|spans| - 1].text, false)
  }

  /** Several separate changes that together replace most of a line: a rewrite, shown without emphasis. */
  predicate Rewritten(script: seq<Edit>, before: string, after: string) {
    && Max(ChangedRuns(OldSpans(script)), ChangedRuns(NewSpans(script))) > 1
    && !IsBlank(before) && !IsBlank(after)
    && (MostlyChanged(OldSpans(script)) || MostlyChanged(NewSpans(script)))
  }

  function EmphasizedPair(diff: Differ, before: string, after: string): (seq<Span>, seq<Span>) {
    var script := diff(before, after);
    if Rewritten(script, before, after) then (Flatten(OldSpans(script)), Flatten(NewSpans(script)))
    else (OldSpans(script), NewSpans(script))
  }

  method FlattenSpans(spans: seq<Span>) returns (flattened: seq<Span>)
    ensures flattened == Flatten(spans)
  {
    flattened := [];
    for i := 0 to |spans|
      invariant flattened == Flatten(spans[..i])
    {
      assert spans[..i + 1][..i] == spans[..i];
      flattened := PushSpan(flattened, spans[i].text, false);
    }
    assert spans[..|spans|] == spans;
  }

  method EmphasizePair(diff: Differ, before: string, after: string) returns (oldSpans: seq<Span>, newSpans: seq<Span>)
    ensures (oldSpans, newSpans) == EmphasizedPair(diff, before, after)
  {
    var script := diff(before, after);
    oldSpans, newSpans := [], [];
    for i := 0 to |script|
      invariant oldSpans == OldSpans(script[..i]) && newSpans == NewSpans(script[..i])
    {
      assert script[..i + 1][..i] == script[..i];
      var value := script[i].text;
      var emphasized := !IsBlank(value);
      match script[i] {
        case Equal(_) =>
          oldSpans := PushSpan(oldSpans, value, false);
          newSpans := PushSpan(newSpans, value, false);
        case Delete(_) => oldSpans := PushSpan(oldSpans, value, emphasized);
        case Insert(_) => newSpans := PushSpan(newSpans, value, emphasized);
      }
    }
    assert script[..|script|] == script;
    var fragmented := Max(ChangedRuns(oldSpans), ChangedRuns(newSpans)) > 1;
    if fragmented && !IsBlank(before) && !IsBlank(after) && (MostlyChanged(oldSpans) || MostlyChanged(newSpans)) {
      oldSpans := FlattenSpans(oldSpans);
      newSpans := FlattenSpans(newSpans);
    }
  }

  // ---- Properties -------------------------------------------------------------------------

  lemma PushSpanText(spans: seq<Span>, text: string, emphasized: bool)
    ensures SpansText(PushSpan(spans, text, emphasized)) == SpansText(spans) + text
  {
    var pushed := PushSpan(spans, text, emphasized);
    if text != [] {
      if spans != [] && spans[|spans| - 1].emphasized == emphasized {
        assert pushed[..|pushed| - 1] == spans[..|spans| - 1];
      } else {
        assert pushed[..|pushed| - 1] == spans;
      }
    }
  }

  /** No span is empty, neighbours differ in emphasis, and nothing blank is emphasized. */
  ghost predicate Normal(spans: seq<Span>) {
    && (forall i :: 0 <= i < |spans| ==> spans[i].text != [] && (spans[i].emphasized ==> !IsBlank(spans[i].text)))
    && (forall i :: 0 <= i < |spans| - 1 ==> spans[i].emphasized != spans[i + 1].emphasized)
  }

  lemma PushSpanNormal(spans: seq<Span>, text: string, emphasized: bool)
    requires Normal(spans) && (emphasized ==> !IsBlank(text))
    ensures Normal(PushSpan(spans, text, emphasized))
  {
    if text != [] && spans != [] && spans[|spans| - 1].emphasized == emphasized && emphasized {
      var i :| 0 <= i < |text| && !IsWhitespace(text[i]);
      var last := spans[|spans| - 1].text;
      assert (last + text)[|last| + i] == text[i];
    }
  }

  lemma {:induction false} ScriptSpans(script: seq<Edit>)
    ensures SpansText(OldSpans(script)) == OldText(script) && Normal(OldSpans(script))
    ensures SpansText(NewSpans(script)) == NewText(script) && Normal(NewSpans(script))
  {
    if script != [] {
      var last, front := script[|script| - 1], script[..|script| - 1];
      ScriptSpans(front);
      PushSpanText(OldSpans(front), last.text, last.Delete? && !IsBlank(last.text));
      PushSpanNormal(OldSpans(front), last.text, last.Delete? && !IsBlank(last.text));
      PushSpanText(NewSpans(front), last.text, last.Insert? && !IsBlank(last.text));
      PushSpanNormal(NewSpans(front), last.text, last.Insert? && !IsBlank(last.text));
    }
  }

  lemma {:induction false} FlattenKeeps(spans: seq<Span>)
    ensures SpansText(Flatten(spans)) == SpansText(spans)
    ensures Normal(Flatten(spans)) && |Flatten(spans)| <= 1
    ensures forall i :: 0 <= i < |Flatten(spans)| ==> !Flatten(spans)[i].emphasized
  {
    if spans != [] {
      var front := spans[..|spans| - 1];
      FlattenKeeps(front);
      PushSpanText(Flatten(front), spans[|spans| - 1].text, false);
      PushSpanNormal(Flatten(front), spans[|spans| - 1].text, false);
    }
  }

  /**
   * Emphasis never changes what a line says: each side's spans spell that side's line, in normal
   * form, and a pair keeps several emphasized runs only while most of both lines is unchanged.
   */
  lemma EmphasisKeepsText(diff: Differ, before: string, after: string)
    requires SoundDiffer(diff)
    ensures var (oldSpans, newSpans) := EmphasizedPair(diff, before, after);
      && SpansText(oldSpans) == before && Normal(oldSpans)
      && SpansText(newSpans) == after && Normal(newSpans)
      && (ChangedRuns(oldSpans) > 1 || ChangedRuns(newSpans) > 1 ==>
            IsBlank(before) || IsBlank(after) || (!MostlyChanged(oldSpans) && !MostlyChanged(newSpans)))
  {
    var script := diff(before, after);
    ScriptSpans(script);
    FlattenKeeps(OldSpans(script));
    FlattenKeeps(NewSpans(script));
    FlatRuns(Flatten(OldSpans(script)));
    FlatRuns(Flatten(NewSpans(script)));
  }

  lemma {:induction false} FlatRuns(spans: seq<Span>)
    requires forall i :: 0 <= i < |spans| ==> !spans[i].emphasized
    ensures ChangedRuns(spans) == 0
  {
    if spans != [] { FlatRuns(spans[..|spans| - 1]); }
  }

  // ---- Which characters are emphasized ----------------------------------------------------

  /** For each character of the spans, whether it is emphasized. */
  function Flags(spans: seq<Span>): seq<bool> {
    if spans == [] then [] else
      var last := spans[|spans| - 1];
      Flags(spans[..|spans| - 1]) + Same(last.emphasized, |last.text|)
  }

  function Same(flag: bool, n: nat): seq<bool> { seq(n, _ => flag) }

  /** Character p of the old line comes from piece k of the script. */
  ghost predicate OldPiece(script: seq<Edit>, k: nat, p: nat) {
    k < |script| && !script[k].Insert? && |OldText(script[..k])| <= p < |OldText(script[..k])| + |script[k].text|
  }

  ghost predicate NewPiece(script: seq<Edit>, k: nat, p: nat) {
    k < |script| && !script[k].Delete? && |NewText(script[..k])| <= p < |NewText(script[..k])| + |script[k].text|
  }

  /** Of the old line, the characters of removed pieces that are not blank, and no others. */
  ghost predicate Removed(script: seq<Edit>, flags: seq<bool>) {
    && |flags| == |OldText(script)|
    && forall k: nat, p: nat :: OldPiece(script, k, p) && p < |flags| ==>
        flags[p] == (script[k].Delete? && !IsBlank(script[k].text))
  }

  ghost predicate Inserted(script: seq<Edit>, flags: seq<bool>) {
    && |flags| == |NewText(script)|
    && forall k: nat, p: nat :: NewPiece(script, k, p) && p < |flags| ==>
        flags[p] == (script[k].Insert? && !IsBlank(script[k].text))
  }

  /** How many stretches of emphasized characters there are. */
  function Stretches(flags: seq<bool>): nat {
    if flags == [] then 0 else
      var front := flags[..|flags| - 1];
      Stretches(front) + (if flags[|flags| - 1] && (front == [] || !front[|front| - 1]) then 1 else 0)
  }

  function VisibleIn(line: string, flags: seq<bool>): nat
    requires |flags| == |line|
  {
    if line == [] then 0 else
      var last := |line| - 1;
      VisibleIn(line[..last], flags[..last]) + (if flags[last] && !IsWhitespace(line[last]) then 1 else 0)
  }

  /** The fraction of a line's visible characters that changed. */
  function ChangedRatio(line: string, flags: seq<bool>): real
    requires |flags| == |line|
  {
    var total := VisibleIn(line, Same(true, |line|));
    if total == 0 then 0.0 else VisibleIn(line, flags) as real / total as real
  }

  lemma FlagsPush(spans: seq<Span>, text: string, emphasized: bool)
    ensures Flags(PushSpan(spans, text, emphasized)) == Flags(spans) + Same(emphasized, |text|)
  {
    var pushed := PushSpan(spans, text, emphasized);
    if text != [] {
      if spans != [] && spans[|spans| - 1].emphasized == emphasized {
        assert pushed[..|pushed| - 1] == spans[..|spans| - 1];
      } else {
        assert pushed[..|pushed| - 1] == spans;
      }
    }
  }

  lemma RemovedPush(front: seq<Edit>, last: Edit, flags: seq<bool>)
    requires Removed(front, flags)
    ensures Removed(front + [last],
      flags + (if last.Insert? then [] else Same(last.Delete? && !IsBlank(last.text), |last.text|)))
  {
    hide IsBlank, OldText, Same;
    var script, n := front + [last], |front|;
    var flag := last.Delete? && !IsBlank(last.text);
    var all := flags + (if last.Insert? then [] else Same(flag, |last.text|));
    SameIs(flag, |last.text|);
    OldTextPush(front, last);
    forall k: nat, p: nat | OldPiece(script, k, p) && p < |all|
      ensures all[p] == (script[k].Delete? && !IsBlank(script[k].text))
    {
      assert script[..k] == if k < n then front[..k] else front;
      if k < n { OldTextGrows(front, k); }
    }
  }

  lemma OldTextPush(front: seq<Edit>, last: Edit)
    ensures OldText(front + [last]) == OldText(front) + (if last.Insert? then [] else last.text)
  {
    assert (front + [last])[..|front|] == front;
  }

  lemma {:induction false} OldSpansFlag(script: seq<Edit>)
    ensures Removed(script, Flags(OldSpans(script)))
  {
    if script != [] {
      hide PushSpan, IsBlank, Flags, Same, Removed;
      var last, front := script[|script| - 1], script[..|script| - 1];
      OldSpansFlag(front);
      FlagsPush(OldSpans(front), last.text, last.Delete? && !IsBlank(last.text));
      RemovedPush(front, last, Flags(OldSpans(front)));
      assert front + [last] == script && Flags(OldSpans(front)) + [] == Flags(OldSpans(front));
    }
  }

  lemma InsertedPush(front: seq<Edit>, last: Edit, flags: seq<bool>)
    requires Inserted(front, flags)
    ensures Inserted(front + [last],
      flags + (if last.Delete? then [] else Same(last.Insert? && !IsBlank(last.text), |last.text|)))
  {
    hide IsBlank, NewText, Same;
    var script, n := front + [last], |front|;
    var flag := last.Insert? && !IsBlank(last.text);
    var all := flags + (if last.Delete? then [] else Same(flag, |last.text|));
    SameIs(flag, |last.text|);
    NewTextPush(front, last);
    forall k: nat, p: nat | NewPiece(script, k, p) && p < |all|
      ensures all[p] == (script[k].Insert? && !IsBlank(script[k].text))
    {
      assert script[..k] == if k < n then front[..k] else front;
      if k < n { NewTextGrows(front, k); }
    }
  }

  lemma NewTextPush(front: seq<Edit>, last: Edit)
    ensures NewText(front + [last]) == NewText(front) + (if last.Delete? then [] else last.text)
  {
    assert (front + [last])[..|front|] == front;
  }

  lemma {:induction false} NewSpansFlag(script: seq<Edit>)
    ensures Inserted(script, Flags(NewSpans(script)))
  {
    if script != [] {
      hide PushSpan, IsBlank, Flags, Same, Inserted;
      var last, front := script[|script| - 1], script[..|script| - 1];
      NewSpansFlag(front);
      FlagsPush(NewSpans(front), last.text, last.Insert? && !IsBlank(last.text));
      InsertedPush(front, last, Flags(NewSpans(front)));
      assert front + [last] == script && Flags(NewSpans(front)) + [] == Flags(NewSpans(front));
    }
  }

  lemma SameIs(flag: bool, n: nat)
    ensures |Same(flag, n)| == n && forall i :: 0 <= i < n ==> Same(flag, n)[i] == flag
  {
  }

  lemma {:induction false} OldTextGrows(script: seq<Edit>, k: nat)
    requires k < |script|
    ensures |OldText(script[..k])| + (if script[k].Insert? then 0 else |script[k].text|) <= |OldText(script)|
    decreases |script|
  {
    var front := script[..|script| - 1];
    if k < |front| {
      OldTextGrows(front, k);
      assert front[..k] == script[..k];
    }
  }

  lemma {:induction false} NewTextGrows(script: seq<Edit>, k: nat)
    requires k < |script|
    ensures |NewText(script[..k])| + (if script[k].Delete? then 0 else |script[k].text|) <= |NewText(script)|
    decreases |script|
  {
    var front := script[..|script| - 1];
    if k < |front| {
      NewTextGrows(front, k);
      assert front[..k] == script[..k];
    }
  }

  lemma {:induction false} StretchesPush(flags: seq<bool>, flag: bool, n: nat)
    ensures Stretches(flags + Same(flag, n)) == Stretches(flags)
      + (if flag && n > 0 && (flags == [] || !flags[|flags| - 1]) then 1 else 0)
    decreases n
  {
    var all := flags + Same(flag, n);
    if n == 0 {
      assert all == flags;
    } else {
      StretchesPush(flags, flag, n - 1);
      assert all[..|all| - 1] == flags + Same(flag, n - 1);
    }
  }

  lemma {:induction false} RunsAreStretches(spans: seq<Span>)
    requires Normal(spans)
    ensures ChangedRuns(spans) == Stretches(Flags(spans)) && |Flags(spans)| == |SpansText(spans)|
    ensures spans != [] ==> Flags(spans) != [] && Flags(spans)[|Flags(spans)| - 1] == spans[|spans| - 1].emphasized
  {
    if spans != [] {
      var front, last := spans[..|spans| - 1], spans[|spans| - 1];
      RunsAreStretches(front);
      StretchesPush(Flags(front), last.emphasized, |last.text|);
      assert front != [] ==> front[|front| - 1] == spans[|front| - 1] && spans[|front|] == last;
    }
  }

  lemma {:induction false} InkPush(s: string, c: char)
    ensures Ink(s + [c]) == Ink(s) + (if IsWhitespace(c) then 0 else 1)
  {
    if s != [] {
      InkPush(s[1..], c);
      assert (s + [c])[1..] == s[1..] + [c];
    } else {
      assert Ink([]) == 0;
    }
  }

  lemma {:induction false} VisiblePush(line: string, flags: seq<bool>, text: string, flag: bool)
    requires |flags| == |line|
    ensures VisibleIn(line + text, flags + Same(flag, |text|)) == VisibleIn(line, flags) + if flag then Ink(text) else 0
    decreases |text|
  {
    var all := flags + Same(flag, |text|);
    if text == [] {
      assert all == flags && line + text == line;
    } else {
      var front, c := text[..|text| - 1], text[|text| - 1];
      VisiblePush(line, flags, front, flag);
      InkPush(front, c);
      assert front + [c] == text;
      assert (line + text)[..|line + text| - 1] == line + front;
      assert all[..|all| - 1] == flags + Same(flag, |front|);
    }
  }

  lemma {:induction false} InkIsVisible(spans: seq<Span>)
    ensures |Flags(spans)| == |SpansText(spans)|
    ensures TotalInk(spans) == VisibleIn(SpansText(spans), Same(true, |SpansText(spans)|))
    ensures ChangedInk(spans) == VisibleIn(SpansText(spans), Flags(spans)) <= TotalInk(spans)
  {
    if spans != [] {
      var front, last := spans[..|spans| - 1], spans[|spans| - 1];
      InkIsVisible(front);
      VisiblePush(SpansText(front), Flags(front), last.text, last.emphasized);
      VisiblePush(SpansText(front), Same(true, |SpansText(front)|), last.text, true);
      assert Same(true, |SpansText(front)|) + Same(true, |last.text|) == Same(true, |SpansText(spans)|);
    }
  }

  lemma MostlyIsRatio(spans: seq<Span>)
    ensures |Flags(spans)| == |SpansText(spans)|
    ensures MostlyChanged(spans) <==> ChangedRatio(SpansText(spans), Flags(spans)) > 0.6
  {
    InkIsVisible(spans);
    var changed, total := ChangedInk(spans), TotalInk(spans);
    if total > 0 { RatioIff(changed, total); }
  }

  lemma RatioIff(changed: nat, total: nat)
    requires total > 0
    ensures changed as real / total as real > 0.6 <==> 5 * changed > 3 * total
  {
    var ratio := changed as real / total as real;
    var t := total as real;
    assert (ratio - 0.6) * t == changed as real - 0.6 * t;
    Product(ratio - 0.6, t);
  }

  lemma Product(x: real, y: real)
    requires y > 0.0
    ensures x * y > 0.0 <==> x > 0.0
  {
  }

  lemma {:induction false} FlattenFlags(spans: seq<Span>)
    ensures Flags(Flatten(spans)) == Same(false, |SpansText(spans)|)
  {
    if spans != [] {
      var front := spans[..|spans| - 1];
      FlattenFlags(front);
      FlagsPush(Flatten(front), spans[|spans| - 1].text, false);
    }
  }

  /** A pair is a rewrite: changed in several stretches on a side, and more than 0.6 of a side is changed. */
  ghost predicate IsRewrite(before: string, after: string, removed: seq<bool>, inserted: seq<bool>)
    requires |removed| == |before| && |inserted| == |after|
  {
    && (Stretches(removed) > 1 || Stretches(inserted) > 1)
    && !IsBlank(before) && !IsBlank(after)
    && (ChangedRatio(before, removed) > 0.6 || ChangedRatio(after, inserted) > 0.6)
  }

  /**
   * Of a pair that is no rewrite, exactly the characters of removed and inserted pieces with something visible are
   * emphasized; of a rewrite, none.
   */
  lemma EmphasisIsExact(diff: Differ, before: string, after: string) returns (removed: seq<bool>, inserted: seq<bool>)
    requires SoundDiffer(diff)
    ensures |removed| == |before| && Removed(diff(before, after), removed)
    ensures |inserted| == |after| && Inserted(diff(before, after), inserted)
    ensures var (oldSpans, newSpans) := EmphasizedPair(diff, before, after);
      if IsRewrite(before, after, removed, inserted)
      then Flags(oldSpans) == Same(false, |before|) && Flags(newSpans) == Same(false, |after|)
      else Flags(oldSpans) == removed && Flags(newSpans) == inserted
  {
    hide OldText, NewText, OldSpans, NewSpans, Flags, Same, Removed, Inserted, IsRewrite, Rewritten, Flatten;
    var script := diff(before, after);
    ScriptSpans(script);
    OldSpansFlag(script);
    NewSpansFlag(script);
    removed, inserted := Flags(OldSpans(script)), Flags(NewSpans(script));
    RewrittenIsRewrite(script, before, after);
    FlattenFlags(OldSpans(script));
    FlattenFlags(NewSpans(script));
  }

  lemma RewrittenIsRewrite(script: seq<Edit>, before: string, after: string)
    requires OldText(script) == before && NewText(script) == after
    ensures var removed, inserted := Flags(OldSpans(script)), Flags(NewSpans(script));
      && |removed| == |before| && |inserted| == |after|
      && (Rewritten(script, before, after) <==> IsRewrite(before, after, removed, inserted))
  {
    hide OldText, NewText, OldSpans, NewSpans, Flags, IsBlank, Stretches, ChangedRatio, MostlyChanged, Normal;
    ScriptSpans(script);
    RunsAreStretches(OldSpans(script));
    RunsAreStretches(NewSpans(script));
    MostlyIsRatio(OldSpans(script));
    MostlyIsRatio(NewSpans(script));
  }
}
