/** Character classes, display widths and line structure shared by the whole model. */
module Text {

  /** The display width of a character in terminal cells; a string is as wide as its characters. */
  type CellWidth = char -> nat

  /** Unicode White_Space. */
  predicate IsWhitespace(c: char) {
    var n := c as int;
    || 0x9 <= n <= 0xD || n == 0x20 || n == 0x85 || n == 0xA0 || n == 0x1680
    || 0x2000 <= n <= 0x200A || n == 0x2028 || n == 0x2029 || n == 0x202F || n == 0x205F || n == 0x3000
  }

  /** Unicode general category Cc. */
  predicate IsControl(c: char) {
    var n := c as int;
    n < 0x20 || 0x7F <= n <= 0x9F
  }

  predicate IsDigit(c: char) {
    '0' <= c <= '9'
  }

  function Cells(w: CellWidth, s: string): nat {
    if s == [] then 0 else w(s[0]) + Cells(w, s[1..])
  }

  lemma {:induction false} CellsConcat(w: CellWidth, a: string, b: string)
    ensures Cells(w, a + b) == Cells(w, a) + Cells(w, b)
  {
    if a == [] {
      assert a + b == b;
    } else {
      assert (a + b)[1..] == a[1..] + b;
      CellsConcat(w, a[1..], b);
    }
  }

  lemma CellsPush(w: CellWidth, s: string, c: char)
    ensures Cells(w, s + [c]) == Cells(w, s) + w(c)
  {
    CellsConcat(w, s, [c]);
    assert [c][1..] == [];
  }

  lemma {:induction false} CellsRepeat(w: CellWidth, c: char, n: nat)
    requires w(c) == 1
    ensures Cells(w, Repeat(c, n)) == n
  {
    if n > 0 {
      assert Repeat(c, n)[1..] == Repeat(c, n - 1);
      CellsRepeat(w, c, n - 1);
    }
  }

  function Repeat(c: char, n: nat): (s: string)
    ensures |s| == n
  {
    seq(n, _ => c)
  }

  /** No line of the text ends in CR LF; holds of everything `Sanitize` returns. */
  ghost predicate NoCrLf(text: string) {
    forall i :: 0 <= i < |text| - 1 ==> !(text[i] == '\r' && text[i + 1] == '\n')
  }

  /** End of the line that starts at `at`: the next newline, or the end of the text. */
  function LineEnd(text: string, at: nat): (end: nat)
    requires at <= |text|
    ensures at <= end <= |text|
    ensures forall i :: at <= i < end ==> text[i] != '\n'
    ensures end < |text| ==> text[end] == '\n'
    decreases |text| - at
  {
    if at == |text| || text[at] == '\n' then at else LineEnd(text, at + 1)
  }

  /** First non-whitespace position in [at, end), or `end`. */
  function NextWord(text: string, at: nat, end: nat): (p: nat)
    requires at <= end <= |text|
    ensures at <= p <= end
    ensures forall i :: at <= i < p ==> IsWhitespace(text[i])
    ensures p < end ==> !IsWhitespace(text[p])
    decreases end - at
  {
    if at == end || !IsWhitespace(text[at]) then at else NextWord(text, at + 1, end)
  }

  /** First whitespace position in [at, end), or `end`. */
  function WordEnd(text: string, at: nat, end: nat): (p: nat)
    requires at <= end <= |text|
    ensures at <= p <= end
    ensures forall i :: at <= i < p ==> !IsWhitespace(text[i])
    ensures p < end ==> IsWhitespace(text[p])
    decreases end - at
  {
    if at == end || IsWhitespace(text[at]) then at else WordEnd(text, at + 1, end)
  }

  function TrimStart(s: string): string {
    if s == [] || !IsWhitespace(s[0]) then s else TrimStart(s[1..])
  }

  function TrimEnd(s: string): string {
    if s == [] || !IsWhitespace(s[|s| - 1]) then s else TrimEnd(s[..|s| - 1])
  }

  function Trim(s: string): string { TrimEnd(TrimStart(s)) }

  function Max(a: nat, b: nat): nat { if a < b then b else a }

  function Min(a: nat, b: nat): nat { if a < b then a else b }

  /** Subtraction that stops at zero, as Rust's `saturating_sub` on unsigned integers. */
  function Monus(a: nat, b: nat): nat { if a < b then 0 else a - b }

  /** The line in text[at..end] without the CR of a CR LF ending. */
  function LineContent(text: string, at: nat, end: nat): string
    requires at <= end <= |text|
  {
    if at < end < |text| && text[end - 1] == '\r' then text[at..end - 1] else text[at..end]
  }

  /** Rust's `str::lines` from `at` on. */
  function LinesFrom(text: string, at: nat): seq<string>
    requires at <= |text|
    decreases |text| - at
  {
    if at == |text| then [] else
      var end := LineEnd(text, at);
      [LineContent(text, at, end)] + LinesFrom(text, Min(end + 1, |text|))
  }

  function Lines(text: string): seq<string> { LinesFrom(text, 0) }

  lemma Assoc<T>(a: seq<T>, b: seq<T>, c: seq<T>)
    ensures (a + b) + c == a + (b + c)
  {
  }

  // ---- The order of strings ---------------------------------------------------------------

  /** Lexicographic order by character, as Rust orders `str`. */
  predicate Precedes(a: string, b: string) {
    b != [] && (a == [] || a[0] < b[0] || (a[0] == b[0] && Precedes(a[1..], b[1..])))
  }

  lemma {:induction false} PrecedesIsTotal(a: string, b: string)
    ensures a == b || Precedes(a, b) || Precedes(b, a)
    ensures !Precedes(a, a)
    ensures !(Precedes(a, b) && Precedes(b, a))
  {
    if a != [] { PrecedesIsTotal(a[1..], a[1..]); }
    if a != [] && b != [] && a[0] == b[0] {
      PrecedesIsTotal(a[1..], b[1..]);
      assert a == [a[0]] + a[1..] && b == [b[0]] + b[1..];
    }
  }

  lemma {:induction false} PrecedesIsTransitive(a: string, b: string, c: string)
    requires Precedes(a, b) && Precedes(b, c)
    ensures Precedes(a, c)
  {
    if a != [] && a[0] == b[0] == c[0] { PrecedesIsTransitive(a[1..], b[1..], c[1..]); }
  }
}
