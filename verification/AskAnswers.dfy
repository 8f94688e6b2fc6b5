/** What is kept of an answer: whole lines, as many as fit 80 lines and 8 KiB, and a marker when some are missing. */
module AskAnswers {
  import opened Text
  import opened DiffModel
  import opened AskProtocol

  const MAX_LINES: nat := 80
  const MAX_BYTES: nat := 8 * 1024
  const TRUNCATED := "\n\U{2026} (answer truncated)"

  // ---- Bytes ------------------------------------------------------------------------------

  /** The UTF-8 encoding of a character. */
  function Utf8(c: char): seq<nat> {
    var n := c as int;
    if n < 0x80 then [n]
    else if n < 0x800 then [0xC0 + n / 0x40, 0x80 + n % 0x40]
    else if n < 0x1_0000 then [0xE0 + n / 0x1000, 0x80 + n / 0x40 % 0x40, 0x80 + n % 0x40]
    else [0xF0 + n / 0x4_0000, 0x80 + n / 0x1000 % 0x40, 0x80 + n / 0x40 % 0x40, 0x80 + n % 0x40]
  }

  function Encoded(s: string): seq<nat> { if s == [] then [] else Utf8(s[0]) + Encoded(s[1..]) }

  lemma {:induction false} BytesAreEncoded(s: string)
    ensures LineBytes(s) == |Encoded(s)|
  {
    if s != [] { BytesAreEncoded(s[1..]); }
  }

  lemma {:induction false} BytesConcat(a: string, b: string)
    ensures LineBytes(a + b) == LineBytes(a) + LineBytes(b)
  {
    if a == [] {
      assert a + b == b;
    } else {
      assert (a + b)[1..] == a[1..] + b;
      BytesConcat(a[1..], b);
    }
  }

  // ---- Lines ------------------------------------------------------------------------------

  lemma {:induction false} JoinedPush(lines: seq<string>, last: string)
    ensures Joined(lines + [last]) == if lines == [] then last else Joined(lines) + "\n" + last
  {
    if lines != [] {
      var all := lines + [last];
      assert all[1..] == lines[1..] + [last];
      JoinedPush(lines[1..], last);
      if |lines| > 1 { Regroup(lines[0], Joined(lines[1..]), last); }
    }
  }

  lemma Regroup(a: string, b: string, c: string)
    ensures a + "\n" + (b + "\n" + c) == (a + "\n" + b) + "\n" + c
  {
  }

  lemma JoinedStep(first: string, rest: seq<string>)
    ensures Joined([first] + rest) == if rest == [] then first else first + "\n" + Joined(rest)
  {
    assert ([first] + rest)[1..] == rest;
  }

  lemma NoLines(text: string)
    ensures LinesFrom(text, |text|) == [] && Joined([]) == []
  {
  }

  /** A text of LF lines that does not end in a newline is its lines, joined. */
  lemma {:induction false} JoinedLines(text: string, at: nat)
    requires at <= |text| && NoCrLf(text) && (text == "" || text[|text| - 1] != '\n')
    ensures Joined(LinesFrom(text, at)) == text[at..]
    ensures at < |text| ==> LinesFrom(text, at) != []
    decreases |text| - at
  {
    hide *;
    NoLines(text);
    if at < |text| {
      var end := LineEnd(text, at);
      FirstLine(text, at);
      var next := if end < |text| then end + 1 else end;
      assert next == Min(end + 1, |text|) by { MinIs(end + 1, |text|); }
      JoinedStep(text[at..end], LinesFrom(text, next));
      if end < |text| {
        assert end + 1 < |text|;
        JoinedLines(text, end + 1);
        Cut(text, at, end);
      }
    }
  }

  lemma MinIs(a: nat, b: nat)
    ensures Min(a, b) == if a < b then a else b
  {
  }

  lemma FirstLine(text: string, at: nat)
    requires at < |text| && NoCrLf(text)
    ensures LinesFrom(text, at) == [text[at..LineEnd(text, at)]] + LinesFrom(text, Min(LineEnd(text, at) + 1, |text|))
  {
    hide LinesFrom, LineEnd;
    var end := LineEnd(text, at);
    assert LineContent(text, at, end) == text[at..end];
    LinesStep(text, at);
  }

  lemma LinesStep(text: string, at: nat)
    requires at < |text|
    ensures var end := LineEnd(text, at);
      LinesFrom(text, at) == [LineContent(text, at, end)] + LinesFrom(text, Min(end + 1, |text|))
  {
    hide LineContent;
  }

  lemma Cut(text: string, at: nat, end: nat)
    requires at <= end < |text| && text[end] == '\n'
    ensures text[at..] == text[at..end] + "\n" + text[end + 1..]
  {
    assert text[at..] == text[at..end] + ([text[end]] + text[end + 1..]);
  }

  // ---- What fits --------------------------------------------------------------------------

  /** The first n lines are at most 80 and, joined by newlines, at most 8 KiB of UTF-8. */
  ghost predicate Fits(lines: seq<string>, n: nat) {
    n <= |lines| && n <= MAX_LINES && |Encoded(Joined(lines[..n]))| <= MAX_BYTES
  }

  /** The longest run of lines from the start that fits, joined, and a marker line if it is not all of them. */
  ghost predicate IsClamped(body: string, kept: string) {
    var lines := Lines(body);
    exists n: nat :: Fits(lines, n) && (forall m: nat :: Fits(lines, m) ==> m <= n)
      && kept == Joined(lines[..n]) + (if n < |lines| then TRUNCATED else "")
  }

  /** What a note holds once it is resolved: a failure as it is, an answer clamped. */
  ghost predicate IsStored(outcome: NoteState, stored: NoteState) {
    match outcome
    case Answered(body) => stored.Answered? && IsClamped(body, stored.body)
    case _ => stored == outcome
  }

  /** Bytes of the first n lines and the newlines after them. */
  function Spent(lines: seq<string>, n: nat): nat
    requires n <= |lines|
  {
    if n == 0 then 0 else Spent(lines, n - 1) + LineBytes(lines[n - 1]) + 1
  }

  lemma {:induction false} JoinedBytes(lines: seq<string>, n: nat)
    requires 0 < n <= |lines|
    ensures LineBytes(Joined(lines[..n])) == Spent(lines, n - 1) + LineBytes(lines[n - 1])
  {
    var front, last := lines[..n - 1], lines[n - 1];
    assert lines[..n] == front + [last];
    JoinedPush(front, last);
    if n > 1 {
      JoinedBytes(lines, n - 1);
      BytesConcat(Joined(front) + "\n", last);
      BytesConcat(Joined(front), "\n");
      assert "\n"[1..] == "";
      assert LineBytes("\n") == 1;
    }
  }

  lemma FitsIff(lines: seq<string>, n: nat)
    requires n < |lines|
    ensures Fits(lines, n + 1) <==> n < MAX_LINES && Spent(lines, n) + LineBytes(lines[n]) <= MAX_BYTES
  {
    JoinedBytes(lines, n + 1);
    BytesAreEncoded(Joined(lines[..n + 1]));
  }

  lemma {:induction false} FewerFit(lines: seq<string>, m: nat, n: nat)
    requires m <= n && Fits(lines, n)
    ensures Fits(lines, m)
    decreases n
  {
    if m < n {
      hide Fits;
      assert n <= |lines| by { FitsBounds(lines, n); }
      FitsIff(lines, n - 1);
      if n == 1 {
        NoneFit(lines);
      } else {
        FitsIff(lines, n - 2);
        assert Spent(lines, n - 1) == Spent(lines, n - 2) + LineBytes(lines[n - 2]) + 1;
        FewerFit(lines, m, n - 1);
      }
    }
  }

  lemma FitsBounds(lines: seq<string>, n: nat)
    requires Fits(lines, n)
    ensures n <= |lines| && n <= MAX_LINES
  {
  }

  lemma NoneFit(lines: seq<string>)
    ensures Fits(lines, 0)
  {
  }

  /** Keeping lines one by one keeps the longest run that fits. */
  lemma {:induction false} KeepsWhatFits(lines: seq<string>, i: nat)
    requires i <= |lines| && Fits(lines, i)
    ensures var kept := KeptLines(lines[i..], i, Spent(lines, i));
      var n := i + |kept|;
      n <= |lines| && kept == lines[i..n] && Fits(lines, n) && !Fits(lines, n + 1)
    decreases |lines| - i
  {
    if i < |lines| {
      hide Fits;
      FitsIff(lines, i);
      assert i <= MAX_LINES by { FitsBounds(lines, i); }
      if Fits(lines, i + 1) {
        KeepsWhatFits(lines, i + 1);
        assert lines[i..][1..] == lines[i + 1..];
      }
    }
  }

  /** The answer that is stored. */
  lemma AnswerIsClamped(body: string)
    ensures IsClamped(body, ClampAnswer(body))
  {
    var lines := Lines(body);
    NoneFit(lines);
    assert lines[0..] == lines;
    KeepsWhatFits(lines, 0);
    var n := |KeptLines(lines, 0, 0)|;
    forall m: nat | Fits(lines, m) ensures m <= n {
      if n < m { FewerFit(lines, n + 1, m); }
    }
  }

  lemma OutcomeIsStored(outcome: NoteState)
    ensures IsStored(outcome, ClampState(outcome))
  {
    hide ClampAnswer, IsClamped;
    if outcome.Answered? { AnswerIsClamped(outcome.body); }
  }

  /** An answer within the limits is stored word for word, but for a last newline. */
  lemma ShortAnswerIsKept(body: string, stored: NoteState)
    requires NoCrLf(body) && (body == "" || body[|body| - 1] != '\n')
    requires |Lines(body)| <= MAX_LINES && |Encoded(body)| <= MAX_BYTES
    requires IsStored(Answered(body), stored)
    ensures stored == Answered(body)
  {
    var lines := Lines(body);
    JoinedLines(body, 0);
    assert lines[..|lines|] == lines && body[0..] == body;
    assert Fits(lines, |lines|);
  }
}
