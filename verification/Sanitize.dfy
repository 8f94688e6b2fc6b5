/** The terminal-escape sanitizer: a five-state filter over the characters of a text. */
module Sanitize {
  import opened Text

  datatype Scan = Ground | Escape | Csi(params: string) | Osc | OscEscape

  const ESC: char := '\U{1b}'
  const BEL: char := '\U{7}'

  /** CR LF becomes LF before the filter runs. */
  function NormalizeNewlines(s: string): string {
    if s == [] then []
    else if |s| >= 2 && s[0] == '\r' && s[1] == '\n' then ['\n'] + NormalizeNewlines(s[2..])
    else [s[0]] + NormalizeNewlines(s[1..])
  }

  predicate IsFinalByte(c: char) { '@' <= c <= '~' }

  predicate IsSgrParams(s: string) {
    forall i :: 0 <= i < |s| ==> IsDigit(s[i]) || s[i] == ';'
  }

  predicate Printable(c: char) { c == '\n' || c == '\t' || !IsControl(c) }

  function Next(state: Scan, c: char): Scan {
    match state
    case Ground => if c == ESC then Escape else Ground
    case Escape => if c == '[' then Csi([]) else if c == ']' then Osc else Ground
    case Csi(params) => if IsFinalByte(c) then Ground else Csi(params + [c])
    case Osc => if c == BEL then Ground else if c == ESC then OscEscape else Osc
    case OscEscape => if c == '\\' then Ground else if c == ESC then OscEscape else Osc
  }

  function Sgr(params: string): string { [ESC, '['] + params + ['m'] }

  function Emit(state: Scan, c: char, sgr: bool): string {
    match state
    case Ground => if c != ESC && Printable(c) then [c] else []
    case Csi(params) => if sgr && c == 'm' && IsSgrParams(params) then Sgr(params) else []
    case _ => []
  }

  function Run(state: Scan, s: string, sgr: bool): string
    decreases s
  {
    if s == [] then [] else Emit(state, s[0], sgr) + Run(Next(state, s[0]), s[1..], sgr)
  }

  function Sanitized(input: string, sgr: bool): string {
    Run(Ground, NormalizeNewlines(input), sgr)
  }

  lemma RunStep(state: Scan, s: string, i: nat, kept: string, sgr: bool)
    requires i < |s|
    ensures kept + Run(state, s[i..], sgr)
         == kept + Emit(state, s[i], sgr) + Run(Next(state, s[i]), s[i + 1..], sgr)
  {
    assert s[i..][0] == s[i] && s[i..][1..] == s[i + 1..];
  }

  method SanitizeTerminalText(input: string, preserveSgr: bool) returns (output: string)
    ensures output == Sanitized(input, preserveSgr)
  {
    var normalized := NormalizeNewlines(input);
    output := [];
    var state := Ground;
    var i := 0;
    while i < |normalized|
      invariant 0 <= i <= |normalized|
      invariant output + Run(state, normalized[i..], preserveSgr) == Sanitized(input, preserveSgr)
    {
      var c := normalized[i];
      RunStep(state, normalized, i, output, preserveSgr);
      ghost var before, kept := state, output;
      match state {
        case Ground =>
          if c == ESC {
            state := Escape;
          } else if Printable(c) {
            output := output + [c];
          }
        case Escape =>
          state := if c == '[' then Csi([]) else if c == ']' then Osc else Ground;
        case Csi(params) =>
          if IsFinalByte(c) {
            if preserveSgr && c == 'm' && IsSgrParams(params) {
              output := output + Sgr(params);
            }
            state := Ground;
          } else {
            state := Csi(params + [c]);
          }
        case Osc =>
          state := if c == BEL then Ground else if c == ESC then OscEscape else Osc;
        case OscEscape =>
          state := if c == '\\' then Ground else if c == ESC then OscEscape else Osc;
      }
      assert state == Next(before, c) && output == kept + Emit(before, c, preserveSgr);
      i := i + 1;
    }
  }

  // ---- What the output can contain --------------------------------------------------------

  /** A concatenation of printable characters and complete ESC [ (digit | ;)* m sequences. */
  ghost predicate SafeSgr(s: string)
  {
    || s == []
    || (Printable(s[0]) && s[0] != ESC && SafeSgr(s[1..]))
    || exists n: nat :: SgrPrefix(s, n) && SafeSgr(s[n + 3..])
  }

  ghost predicate SgrPrefix(s: string, n: nat) {
    n + 3 <= |s| && s[..n + 3] == Sgr(s[2..n + 2]) && IsSgrParams(s[2..n + 2])
  }

  /** No control character but newline and tab survives plain sanitizing. */
  lemma {:induction false} RunPlainIsPrintable(state: Scan, s: string)
    ensures forall i :: 0 <= i < |Run(state, s, false)| ==> Printable(Run(state, s, false)[i])
    decreases s
  {
    if s != [] { RunPlainIsPrintable(Next(state, s[0]), s[1..]); }
  }

  lemma PlainOutputIsPrintable(input: string)
    ensures forall i :: 0 <= i < |Sanitized(input, false)| ==> Printable(Sanitized(input, false)[i])
    ensures '\r' !in Sanitized(input, false) && NoCrLf(Sanitized(input, false))
  {
    RunPlainIsPrintable(Ground, NormalizeNewlines(input));
  }

  lemma {:induction false} RunSgrIsSafe(state: Scan, s: string)
    ensures SafeSgr(Run(state, s, true))
    decreases s
  {
    if s != [] {
      hide SafeSgr, Emit;
      RunSgrIsSafe(Next(state, s[0]), s[1..]);
      EmitKeepsSafe(state, s[0], Run(Next(state, s[0]), s[1..], true));
    }
  }

  /** One step puts nothing, a printable character or a whole SGR sequence in front of safe output. */
  lemma EmitKeepsSafe(state: Scan, c: char, rest: string)
    requires SafeSgr(rest)
    ensures SafeSgr(Emit(state, c, true) + rest)
  {
    var out := Emit(state, c, true) + rest;
    assert [] + rest == rest;
    match state {
      case Ground =>
        if c != ESC && Printable(c) { assert out[1..] == rest; }
      case Csi(params) =>
        if c == 'm' && IsSgrParams(params) {
          assert out[2..|params| + 2] == params && out[..|params| + 3] == Sgr(params);
          assert out[|params| + 3..] == rest;
          assert SgrPrefix(out, |params|);
        }
      case _ =>
    }
  }

  /** Every escape that survives SGR mode starts a complete SGR sequence. */
  lemma SgrOutputIsSafe(input: string)
    ensures SafeSgr(Sanitized(input, true))
  {
    RunSgrIsSafe(Ground, NormalizeNewlines(input));
  }

  // ---- Idempotence and mode composition ---------------------------------------------------

  lemma {:induction false} RunParams(params: string, more: string, t: string, sgr: bool)
    requires IsSgrParams(more) && IsSgrParams(params)
    ensures Run(Csi(params), more + ['m'] + t, sgr)
         == (if sgr then Sgr(params + more) else []) + Run(Ground, t, sgr)
    decreases |more|
  {
    var s := more + ['m'] + t;
    if more == [] {
      assert s[0] == 'm' && s[1..] == t && params + more == params;
    } else {
      assert s[0] == more[0] && s[1..] == more[1..] + ['m'] + t;
      assert params + [more[0]] + more[1..] == params + more;
      RunParams(params + [more[0]], more[1..], t, sgr);
    }
  }

  lemma RunSgrSequence(params: string, t: string, sgr: bool)
    requires IsSgrParams(params)
    ensures Run(Ground, Sgr(params) + t, sgr) == (if sgr then Sgr(params) else []) + Run(Ground, t, sgr)
  {
    var s := Sgr(params) + t;
    assert s[1..][1..] == params + ['m'] + t;
    assert s[0] == ESC && s[1..][0] == '[';
    RunParams([], params, t, sgr);
    assert [] + params == params;
  }

  /** Filtering SGR-mode output again, in either mode, equals filtering the text once in that mode. */
  lemma {:induction false} RunAgain(state: Scan, s: string, sgr: bool)
    ensures Run(Ground, Run(state, s, true), sgr) == Run(state, s, sgr)
    decreases s
  {
    if s != [] {
      RunAgain(Next(state, s[0]), s[1..], sgr);
      EmittedAgain(state, s[0], Run(Next(state, s[0]), s[1..], true), sgr);
    }
  }

  /** What one character put out comes out again: printed characters and whole SGR sequences are read as themselves. */
  lemma EmittedAgain(state: Scan, c: char, tail: string, sgr: bool)
    ensures Run(Ground, Emit(state, c, true) + tail, sgr) == Emit(state, c, sgr) + Run(Ground, tail, sgr)
  {
    hide Sgr;
    assert [] + tail == tail && [] + Run(Ground, tail, sgr) == Run(Ground, tail, sgr);
    match state {
      case Ground =>
        if c != ESC && Printable(c) { assert ([c] + tail)[1..] == tail; }
      case Csi(params) =>
        if c == 'm' && IsSgrParams(params) { RunSgrSequence(params, tail, sgr); }
      case _ =>
    }
  }

  lemma {:induction false} PlainFixed(s: string, sgr: bool)
    requires forall i :: 0 <= i < |s| ==> Printable(s[i])
    ensures Run(Ground, s, sgr) == s
  {
    if s != [] { PlainFixed(s[1..], sgr); }
  }

  lemma {:induction false} NormalizeFixed(s: string)
    requires '\r' !in s
    ensures NormalizeNewlines(s) == s
  {
    if s != [] { NormalizeFixed(s[1..]); }
  }

  lemma {:induction false} RunHasNoCr(state: Scan, s: string, sgr: bool)
    ensures '\r' !in Run(state, s, sgr)
    decreases s
  {
    if s != [] { RunHasNoCr(Next(state, s[0]), s[1..], sgr); }
  }

  /** Each mode is idempotent, and plain mode after SGR mode is plain mode. */
  lemma SanitizeTwice(input: string, first: bool, second: bool)
    ensures Sanitized(Sanitized(input, first), second) == Sanitized(input, first && second)
  {
    var once := Sanitized(input, first);
    RunHasNoCr(Ground, NormalizeNewlines(input), first);
    NormalizeFixed(once);
    if first {
      RunAgain(Ground, NormalizeNewlines(input), second);
    } else {
      RunPlainIsPrintable(Ground, NormalizeNewlines(input));
      PlainFixed(once, second);
    }
  }

  /** A text the filter has nothing to remove from is returned unchanged, and only such a text is. */
  lemma UnchangedIffPrintable(input: string)
    ensures Sanitized(input, false) == input <==> (forall i :: 0 <= i < |input| ==> Printable(input[i]))
  {
    if forall i :: 0 <= i < |input| ==> Printable(input[i]) {
      NormalizeFixed(input);
      PlainFixed(input, false);
    } else {
      PlainOutputIsPrintable(input);
    }
  }

  /** Lines shown as diff text: sanitized, with each tab widened to two spaces. */
  function ExpandTabs(s: string): string {
    if s == [] then [] else (if s[0] == '\t' then "  " else [s[0]]) + ExpandTabs(s[1..])
  }

  function SanitizeLine(s: string): string { ExpandTabs(Sanitized(s, false)) }
}
