/** Release versions: parsing, printing, the order of SemVer 2.0.0, and which update to offer. */
module Version {
  import opened Text
  import opened DiffModel

  const U64_LIMIT: nat := 0x1_0000_0000_0000_0000

  datatype Identifier = Numeric(value: nat) | Word(text: string)

  datatype Release = Release(major: nat, minor: nat, patch: nat, prerelease: seq<Identifier>)

  datatype Ordering = Less | Equal | Greater

  // ---- Splitting --------------------------------------------------------------------------

  function Find(s: string, c: char): (i: nat)
    ensures i <= |s|
    ensures c !in s[..i]
    ensures i < |s| ==> s[i] == c
  {
    if s == [] || s[0] == c then 0 else 1 + Find(s[1..], c)
  }

  function Split(s: string, c: char): (parts: seq<string>)
    ensures parts != []
    decreases |s|
  {
    var i := Find(s, c);
    if i == |s| then [s] else [s[..i]] + Split(s[i + 1..], c)
  }

  function Join(parts: seq<string>, c: char): string
    requires parts != []
  {
    if |parts| == 1 then parts[0] else parts[0] + [c] + Join(parts[1..], c)
  }

  // ---- Numbers and identifiers ------------------------------------------------------------

  function Digits(n: nat): (s: string)
    ensures s != [] && forall i :: 0 <= i < |s| ==> IsDigit(s[i])
  {
    var last := [('0' as int + n % 10) as char];
    if n < 10 then last else Digits(n / 10) + last
  }

  predicate AllDigits(s: string) { forall i :: 0 <= i < |s| ==> IsDigit(s[i]) }

  function ValueOf(s: string): nat
    requires AllDigits(s)
  {
    if s == [] then 0 else 10 * ValueOf(s[..|s| - 1]) + (s[|s| - 1] as int - '0' as int)
  }

  function ParseU64(s: string): Option<nat> {
    if s == [] || !AllDigits(s) || ValueOf(s) >= U64_LIMIT then None else Some(ValueOf(s))
  }

  function ParseCoreNumber(s: string): Option<nat> {
    if |s| > 1 && s[0] == '0' then None else ParseU64(s)
  }

  predicate IsIdentifierChar(c: char) { 'a' <= c <= 'z' || 'A' <= c <= 'Z' || IsDigit(c) || c == '-' }

  function ParseIdentifier(s: string): Option<Identifier> {
    if s == [] || exists i :: 0 <= i < |s| && !IsIdentifierChar(s[i]) then None
    else if AllDigits(s) then
      if |s| > 1 && s[0] == '0' then None
      else if ParseU64(s).Some? then Some(Numeric(ParseU64(s).value)) else None
    else Some(Word(s))
  }

  function ParseIdentifiers(parts: seq<string>): Option<seq<Identifier>> {
    if parts == [] then Some([]) else
      var front, last := ParseIdentifiers(parts[..|parts| - 1]), ParseIdentifier(parts[|parts| - 1]);
      if front.Some? && last.Some? then Some(front.value + [last.value]) else None
  }

  // ---- Parsing and printing ---------------------------------------------------------------

  /** A version without its leading `v` and its build metadata. */
  function Bare(source: string): string {
    var s := if source != [] && source[0] == 'v' then source[1..] else source;
    s[..Find(s, '+')]
  }

  function ParseBare(s: string): Option<Release> {
    var dash := Find(s, '-');
    var core := Split(s[..dash], '.');
    if |core| != 3 then None else
      var major, minor, patch := ParseCoreNumber(core[0]), ParseCoreNumber(core[1]), ParseCoreNumber(core[2]);
      var prerelease := if dash < |s| then ParseIdentifiers(Split(s[dash + 1..], '.')) else Some([]);
      if major.Some? && minor.Some? && patch.Some? && prerelease.Some?
      then Some(Release(major.value, minor.value, patch.value, prerelease.value)) else None
  }

  function Parse(source: string): Option<Release> { ParseBare(Bare(source)) }

  function IdentifierText(id: Identifier): string { if id.Numeric? then Digits(id.value) else id.text }

  function IdentifierTexts(ids: seq<Identifier>): (texts: seq<string>)
    ensures |texts| == |ids|
  {
    seq(|ids|, i requires 0 <= i < |ids| => IdentifierText(ids[i]))
  }

  function CoreText(v: Release): string { Digits(v.major) + "." + Digits(v.minor) + "." + Digits(v.patch) }

  function Normalized(v: Release): string {
    if v.prerelease == [] then CoreText(v) else CoreText(v) + "-" + Join(IdentifierTexts(v.prerelease), '.')
  }

  method NormalizedText(v: Release) returns (output: string)
    ensures output == Normalized(v)
  {
    output := Digits(v.major) + "." + Digits(v.minor) + "." + Digits(v.patch);
    if v.prerelease != [] {
      output := output + "-";
      ghost var texts := IdentifierTexts(v.prerelease);
      for i := 0 to |v.prerelease|
        invariant output == CoreText(v) + "-" + (if i == 0 then [] else Join(texts[..i], '.'))
      {
        if i > 0 {
          JoinSnoc(texts[..i], texts[i], '.');
          assert texts[..i] + [texts[i]] == texts[..i + 1];
          output := output + ".";
        }
        output := output + IdentifierText(v.prerelease[i]);
      }
      assert texts[..|texts|] == texts;
    }
  }

  lemma {:induction false} JoinSnoc(parts: seq<string>, last: string, c: char)
    requires parts != []
    ensures Join(parts + [last], c) == Join(parts, c) + [c] + last
  {
    if |parts| > 1 {
      JoinSnoc(parts[1..], last, c);
      assert (parts + [last])[1..] == parts[1..] + [last];
    }
  }

  // ---- Order ------------------------------------------------------------------------------

  function CompareNumbers(a: nat, b: nat): Ordering { if a < b then Less else if a == b then Equal else Greater }

  function Then(first: Ordering, second: Ordering): Ordering { if first == Equal then second else first }

  function CompareIdentifiers(a: Identifier, b: Identifier): Ordering {
    match (a, b)
    case (Numeric(x), Numeric(y)) => CompareNumbers(x, y)
    case (Numeric(_), Word(_)) => Less
    case (Word(_), Numeric(_)) => Greater
    case (Word(x), Word(y)) => if x == y then Equal else if Precedes(x, y) then Less else Greater
  }

  function ComparePrereleases(a: seq<Identifier>, b: seq<Identifier>): Ordering {
    if a == [] || b == [] then CompareNumbers(|a|, |b|)
    else Then(CompareIdentifiers(a[0], b[0]), ComparePrereleases(a[1..], b[1..]))
  }

  function Compare(a: Release, b: Release): Ordering {
    Then(CompareNumbers(a.major, b.major), Then(CompareNumbers(a.minor, b.minor), Then(CompareNumbers(a.patch, b.patch),
      if (a.prerelease == []) == (b.prerelease == []) then ComparePrereleases(a.prerelease, b.prerelease)
      else if a.prerelease == [] then Greater else Less)))
  }

  // ---- Choosing an update -----------------------------------------------------------------

  const TAG_PREFIX := "refs/tags/v"

  /** The version a line of `git ls-remote` names, if it names one. */
  function Candidate(line: string): Option<Release> {
    var tab := Find(line, '\t');
    if tab == |line| then None else
      var reference := line[tab + 1..];
      if TAG_PREFIX <= reference then Parse(reference[|TAG_PREFIX|..]) else None
  }

  function Candidates(lines: seq<string>): seq<Release> {
    if lines == [] then [] else
      var last := Candidate(lines[|lines| - 1]);
      Candidates(lines[..|lines| - 1]) + (if last.Some? then [last.value] else [])
  }

  /** The greatest candidate above a version, stable or not as asked. */
  function Newest(candidates: seq<Release>, above: Release, stable: bool, either: bool): Option<Release> {
    if candidates == [] then None else
      var before, last := Newest(candidates[..|candidates| - 1], above, stable, either), candidates[|candidates| - 1];
      if (!either && (last.prerelease == []) != stable) || Compare(last, above) != Greater then before
      else if before.Some? && Compare(before.value, last) == Greater then before
      else Some(last)
  }

  /** A stable installation is offered the newest stable version, and a prerelease only when there is none. */
  function SelectUpdate(installed: Release, candidates: seq<Release>): Option<Release> {
    if installed.prerelease != [] then Newest(candidates, installed, true, true)
    else if Newest(candidates, installed, true, false).Some? then Newest(candidates, installed, true, false)
    else Newest(candidates, installed, false, false)
  }

  function SelectRemoteUpdateNotice(installedVersion: string, tags: string): Option<string> {
    var installed := Parse(installedVersion);
    if installed.None? then None else
      var selected := SelectUpdate(installed.value, Candidates(Lines(tags)));
      if selected.None? then None
      else Some("Update available: " + Normalized(selected.value) + " \U{2022} install the latest ramo release")
  }
}
