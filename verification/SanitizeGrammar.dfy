/** The sanitizer against the grammar of escape sequences: what is kept of the pieces any text is made of. */
module SanitizeGrammar {
  import opened Text
  import opened Sanitize

  /** A character; ESC and another character; ESC [ up to a final byte; ESC ] up to BEL or ESC \. */
  datatype Piece =
    | Char(c: char) | Pair(c: char) | Control(params: string, final: char) | Command(body: string, bell: bool)

  /** What a command can hold: a BEL only right after an ESC, and no backslash there. */
  predicate IsBody(s: string) {
    && (forall i :: 0 <= i < |s| && s[i] == BEL ==> i > 0 && s[i - 1] == ESC)
    && (forall i :: 0 < i < |s| && s[i] == '\\' ==> s[i - 1] != ESC)
  }

  predicate IsParams(s: string) { forall i :: 0 <= i < |s| ==> !IsFinalByte(s[i]) }

  predicate WellFormed(p: Piece) {
    match p
    case Char(c) => c != ESC
    case Pair(c) => c != '[' && c != ']'
    case Control(params, final) => IsParams(params) && IsFinalByte(final)
    case Command(body, bell) => IsBody(body) && (bell ==> body == [] || body[|body| - 1] != ESC)
  }

  function Written(p: Piece): string {
    match p
    case Char(c) => [c]
    case Pair(c) => [ESC, c]
    case Control(params, final) => [ESC, '['] + params + [final]
    case Command(body, bell) => [ESC, ']'] + body + (if bell then [BEL] else [ESC, '\\'])
  }

  function WrittenAll(pieces: seq<Piece>): string {
    if pieces == [] then [] else Written(pieces[0]) + WrittenAll(pieces[1..])
  }

  /** A sequence the text ends in the middle of. */
  predicate IsUnfinished(s: string) {
    || s == [] || s == [ESC]
    || (|s| >= 2 && s[..2] == [ESC, '['] && IsParams(s[2..]))
    || (|s| >= 2 && s[..2] == [ESC, ']'] && IsBody(s[2..]))
  }

  /** Characters that print, newlines and tabs are kept, and colours where they are asked for. */
  predicate IsKept(p: Piece, sgr: bool) {
    || (p.Char? && Printable(p.c))
    || (sgr && p.Control? && p.final == 'm' && IsSgrParams(p.params))
  }

  function KeptAll(pieces: seq<Piece>, sgr: bool): string {
    if pieces == [] then []
    else (if IsKept(pieces[0], sgr) then Written(pieces[0]) else []) + KeptAll(pieces[1..], sgr)
  }

  ghost predicate AllWellFormed(pieces: seq<Piece>) { forall i :: 0 <= i < |pieces| ==> WellFormed(pieces[i]) }

  // ---- Every text has one reading ---------------------------------------------------------

  lemma {:induction false} ParamsEnd(s: string, from: nat) returns (end: nat)
    requires from <= |s|
    ensures from <= end <= |s| && IsParams(s[from..end]) && (end < |s| ==> IsFinalByte(s[end]))
    decreases |s| - from
  {
    end := from;
    if from < |s| && !IsFinalByte(s[from]) {
      end := ParamsEnd(s, from + 1);
      assert s[from..end] == [s[from]] + s[from + 1..end];
    }
  }

  /** Where a command that holds s[..from] ends: before its BEL, before its ESC \, or with the text. */
  lemma {:induction false} BodyEnd(s: string, from: nat) returns (end: nat)
    requires from <= |s| && IsBody(s[..from])
    ensures from <= end + 1 && end <= |s| && IsBody(s[..end])
    ensures end < |s| && s[end] == BEL ==> end == 0 || s[end - 1] != ESC
    ensures end < |s| && s[end] != BEL ==> end + 1 < |s| && s[end] == ESC && s[end + 1] == '\\'
    decreases |s| - from
  {
    if from == |s| {
      end := from;
    } else if s[from] == BEL && (from == 0 || s[from - 1] != ESC) {
      end := from;
    } else if s[from] == '\\' && from > 0 && s[from - 1] == ESC {
      end := from - 1;
    } else {
      assert s[..from + 1] == s[..from] + [s[from]];
      end := BodyEnd(s, from + 1);
    }
  }

  lemma FirstPiece(s: string) returns (p: Piece)
    requires !IsUnfinished(s)
    ensures WellFormed(p) && Written(p) <= s && Written(p) != []
  {
    if s[0] != ESC {
      p := Char(s[0]);
    } else if s[1] == '[' {
      var end := ParamsEnd(s, 2);
      assert s[2..] == s[2..|s|];
      p := Control(s[2..end], s[end]);
      assert s[..end + 1] == Written(p);
    } else if s[1] == ']' {
      var rest := s[2..];
      var end := BodyEnd(rest, 0);
      assert rest[..|rest|] == rest;
      p := Command(rest[..end], rest[end] == BEL);
      assert s[..2 + end] == [ESC, ']'] + rest[..end];
      assert rest[end] == s[2 + end];
      if p.bell { assert s[..2 + end + 1] == Written(p); } else { assert s[..2 + end + 2] == Written(p); }
    } else {
      p := Pair(s[1]);
    }
  }

  /** Every text is well-formed pieces and perhaps an unfinished one. */
  lemma {:induction false} Pieces(s: string) returns (pieces: seq<Piece>, rest: string)
    ensures AllWellFormed(pieces) && IsUnfinished(rest) && s == WrittenAll(pieces) + rest
    decreases |s|
  {
    hide Written, IsUnfinished, WellFormed;
    if IsUnfinished(s) {
      pieces, rest := [], s;
    } else {
      var first := FirstPiece(s);
      var others;
      others, rest := Pieces(s[|Written(first)|..]);
      pieces := [first] + others;
      assert s == Written(first) + s[|Written(first)|..];
    }
  }

  // ---- What is kept -----------------------------------------------------------------------

  lemma {:induction false} RunParamsPast(params: string, more: string, t: string, sgr: bool)
    requires IsParams(more)
    ensures Run(Csi(params), more + t, sgr) == Run(Csi(params + more), t, sgr)
    decreases |more|
  {
    var s := more + t;
    if more == [] {
      assert s == t && params + more == params;
    } else {
      assert s[0] == more[0] && s[1..] == more[1..] + t;
      assert params + [more[0]] + more[1..] == params + more;
      RunParamsPast(params + [more[0]], more[1..], t, sgr);
    }
  }

  /** In a command after s[..i]. */
  function InBody(s: string, i: nat): Scan
    requires i <= |s|
  {
    if i > 0 && s[i - 1] == ESC then OscEscape else Osc
  }

  lemma {:induction false} RunBody(s: string, i: nat, t: string, sgr: bool)
    requires i <= |s| && IsBody(s)
    ensures Run(InBody(s, i), s[i..] + t, sgr) == Run(InBody(s, |s|), t, sgr)
    decreases |s| - i
  {
    var all := s[i..] + t;
    if i == |s| {
      assert all == t;
    } else {
      assert all[0] == s[i] && all[1..] == s[i + 1..] + t;
      RunBody(s, i + 1, t, sgr);
    }
  }

  lemma RunOne(state: Scan, c: char, t: string, sgr: bool)
    ensures Run(state, [c] + t, sgr) == Emit(state, c, sgr) + Run(Next(state, c), t, sgr)
  {
    assert ([c] + t)[1..] == t;
  }

  lemma Opened(c: char, t: string, sgr: bool)
    ensures Run(Ground, [ESC, c] + t, sgr) == Run(Next(Escape, c), t, sgr)
  {
    hide Run;
    RunOne(Ground, ESC, [c] + t, sgr);
    RunOne(Escape, c, t, sgr);
    assert [ESC] + ([c] + t) == [ESC, c] + t;
  }

  lemma RunCommand(body: string, bell: bool, t: string, sgr: bool)
    requires IsBody(body) && (bell ==> body == [] || body[|body| - 1] != ESC)
    ensures Run(Osc, body + (if bell then [BEL] else [ESC, '\\']) + t, sgr) == Run(Ground, t, sgr)
  {
    hide Run, IsBody;
    var ending := if bell then [BEL] else [ESC, '\\'];
    RunBody(body, 0, ending + t, sgr);
    assert body[0..] + (ending + t) == body + ending + t;
    if bell {
      RunOne(Osc, BEL, t, sgr);
    } else {
      RunOne(InBody(body, |body|), ESC, ['\\'] + t, sgr);
      RunOne(OscEscape, '\\', t, sgr);
      assert [ESC] + (['\\'] + t) == ending + t;
    }
  }

  lemma RunControl(params: string, final: char, t: string, sgr: bool)
    requires IsParams(params) && IsFinalByte(final)
    ensures Run(Csi([]), params + [final] + t, sgr)
         == (if sgr && final == 'm' && IsSgrParams(params) then Sgr(params) else []) + Run(Ground, t, sgr)
  {
    RunParamsPast([], params, [final] + t, sgr);
    assert params + ([final] + t) == params + [final] + t && [] + params == params;
    assert ([final] + t)[0] == final && ([final] + t)[1..] == t;
  }

  lemma RunPiece(p: Piece, t: string, sgr: bool)
    requires WellFormed(p)
    ensures Run(Ground, Written(p) + t, sgr) == (if IsKept(p, sgr) then Written(p) else []) + Run(Ground, t, sgr)
  {
    hide Run, IsBody, IsParams, IsSgrParams;
    match p {
      case Char(c) => RunOne(Ground, c, t, sgr);
      case Pair(c) => Opened(c, t, sgr);
      case Control(params, final) =>
        assert Written(p) + t == [ESC, '['] + (params + [final] + t);
        Opened('[', params + [final] + t, sgr);
        RunControl(params, final, t, sgr);
      case Command(body, bell) =>
        var ending := if bell then [BEL] else [ESC, '\\'];
        assert Written(p) + t == [ESC, ']'] + (body + ending + t);
        Opened(']', body + ending + t, sgr);
        RunCommand(body, bell, t, sgr);
    }
  }

  lemma RunUnfinished(s: string, sgr: bool)
    requires IsUnfinished(s)
    ensures Run(Ground, s, sgr) == []
  {
    if |s| >= 2 {
      assert s == [s[0], s[1]] + s[2..] && s[2..] + [] == s[2..];
      Opened(s[1], s[2..], sgr);
      if s[1] == '[' {
        RunParamsPast([], s[2..], [], sgr);
      } else {
        RunBody(s[2..], 0, [], sgr);
      }
    }
  }

  /**
   * However a text is made of pieces, what is left of it is its printable characters, newlines and tabs, and, where
   * colours are asked for, its complete colour sequences, each as it was written and in order.
   */
  lemma {:induction false} PiecesAreKept(pieces: seq<Piece>, rest: string, sgr: bool)
    requires AllWellFormed(pieces) && IsUnfinished(rest)
    ensures Run(Ground, WrittenAll(pieces) + rest, sgr) == KeptAll(pieces, sgr)
  {
    if pieces == [] {
      RunUnfinished(rest, sgr);
      assert WrittenAll(pieces) + rest == rest;
    } else {
      var t := WrittenAll(pieces[1..]) + rest;
      assert WrittenAll(pieces) + rest == Written(pieces[0]) + t;
      hide Written, Run, IsKept, IsUnfinished, WellFormed;
      PiecesAreKept(pieces[1..], rest, sgr);
      RunPiece(pieces[0], t, sgr);
    }
  }

  /** Any text, once its newlines are normalized, has such a reading, and sanitizing keeps exactly that. */
  lemma SanitizedByGrammar(input: string, sgr: bool) returns (pieces: seq<Piece>, rest: string)
    ensures AllWellFormed(pieces) && IsUnfinished(rest) && NormalizeNewlines(input) == WrittenAll(pieces) + rest
    ensures Sanitized(input, sgr) == KeptAll(pieces, sgr)
  {
    pieces, rest := Pieces(NormalizeNewlines(input));
    PiecesAreKept(pieces, rest, sgr);
  }
}
