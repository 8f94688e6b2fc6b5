/** Printing and parsing versions are inverse, the order is total, and the offered update is the best one. */
module VersionProofs {
  import opened Text
  import opened DiffModel
  import opened Version

  // ---- Splitting undoes joining -----------------------------------------------------------

  lemma {:induction false} FindIn(a: string, c: char, b: string)
    requires c !in a
    ensures Find(a, c) == |a| && Find(a + [c] + b, c) == |a|
  {
    if a == [] {
    } else {
      FindIn(a[1..], c, b);
      assert (a + [c] + b)[1..] == a[1..] + [c] + b;
    }
  }

  lemma {:induction false} JoinOfSplit(s: string, c: char)
    ensures Join(Split(s, c), c) == s
    ensures forall i :: 0 <= i < |Split(s, c)| ==> c !in Split(s, c)[i]
    decreases |s|
  {
    var i := Find(s, c);
    if i < |s| {
      JoinOfSplit(s[i + 1..], c);
      assert Split(s, c)[1..] == Split(s[i + 1..], c);
      assert s == s[..i] + [c] + s[i + 1..];
    } else {
      assert s[..i] == s;
    }
  }

  lemma SplitHead(first: string, c: char, rest: string)
    requires c !in first
    ensures Split(first + [c] + rest, c) == [first] + Split(rest, c)
  {
    hide Find;
    FindIn(first, c, rest);
    var s := first + [c] + rest;
    assert s[..|first|] == first && s[|first| + 1..] == rest;
  }

  lemma {:induction false} SplitOfJoin(parts: seq<string>, c: char)
    requires parts != [] && forall i :: 0 <= i < |parts| ==> c !in parts[i]
    ensures Split(Join(parts, c), c) == parts
  {
    hide Find, Split;
    if |parts| == 1 {
      FindIn(parts[0], c, []);
      SplitWhole(parts[0], c);
      assert parts == [parts[0]];
    } else {
      SplitOfJoin(parts[1..], c);
      SplitHead(parts[0], c, Join(parts[1..], c));
      assert parts == [parts[0]] + parts[1..];
    }
  }

  lemma SplitWhole(s: string, c: char)
    requires c !in s
    ensures Split(s, c) == [s]
  {
    FindIn(s, c, []);
  }

  // ---- Numbers ----------------------------------------------------------------------------

  lemma {:induction false} DigitsValue(n: nat)
    ensures AllDigits(Digits(n)) && ValueOf(Digits(n)) == n
    ensures |Digits(n)| > 1 ==> Digits(n)[0] != '0'
    ensures n > 0 ==> Digits(n)[0] != '0'
  {
    if n >= 10 {
      DigitsValue(n / 10);
      assert Digits(n)[..|Digits(n)| - 1] == Digits(n / 10);
    }
  }

  lemma {:induction false} ValueDigits(s: string)
    requires s != [] && AllDigits(s) && !(|s| > 1 && s[0] == '0')
    ensures Digits(ValueOf(s)) == s
    ensures s[0] != '0' ==> ValueOf(s) > 0
  {
    var front, last := s[..|s| - 1], s[|s| - 1];
    if front == [] {
      assert s == [last];
    } else {
      ValueDigits(front);
      assert s == front + [last];
    }
  }

  /** A number parses exactly when it is written without leading zeros and fits 64 bits. */
  lemma NumberIff(s: string, n: nat)
    ensures ParseCoreNumber(s) == Some(n) <==> n < U64_LIMIT && s == Digits(n)
  {
    DigitsValue(n);
    if ParseCoreNumber(s) == Some(n) { ValueDigits(s); }
  }

  // ---- Identifiers ------------------------------------------------------------------------

  predicate ValidIdentifier(id: Identifier) {
    match id
    case Numeric(value) => value < U64_LIMIT
    case Word(text) => text != [] && !AllDigits(text) && forall i :: 0 <= i < |text| ==> IsIdentifierChar(text[i])
  }

  predicate Valid(v: Release) {
    && v.major < U64_LIMIT && v.minor < U64_LIMIT && v.patch < U64_LIMIT
    && forall i :: 0 <= i < |v.prerelease| ==> ValidIdentifier(v.prerelease[i])
  }

  lemma IdentifierIff(s: string, id: Identifier)
    ensures ParseIdentifier(s) == Some(id) <==> ValidIdentifier(id) && s == IdentifierText(id)
    ensures ValidIdentifier(id) ==> '.' !in IdentifierText(id) && '+' !in IdentifierText(id)
  {
    if id.Numeric? {
      NumberIff(s, id.value);
      DigitsValue(id.value);
    }
  }

  lemma {:induction false} IdentifiersIff(parts: seq<string>, ids: seq<Identifier>)
    ensures ParseIdentifiers(parts) == Some(ids) <==>
      parts == IdentifierTexts(ids) && forall i :: 0 <= i < |ids| ==> ValidIdentifier(ids[i])
  {
    hide ParseIdentifier, ValidIdentifier, IdentifierText;
    if parts == [] {
    } else if ids == [] {
      var front, last := ParseIdentifiers(parts[..|parts| - 1]), ParseIdentifier(parts[|parts| - 1]);
      assert ParseIdentifiers(parts).Some? ==> |ParseIdentifiers(parts).value| > 0;
    } else {
      var p, i := |parts| - 1, |ids| - 1;
      IdentifiersIff(parts[..p], ids[..i]);
      IdentifierIff(parts[p], ids[i]);
      assert parts == parts[..p] + [parts[p]] && ids == ids[..i] + [ids[i]];
      assert IdentifierTexts(ids) == IdentifierTexts(ids[..i]) + [IdentifierText(ids[i])];
      var front, last := ParseIdentifiers(parts[..p]), ParseIdentifier(parts[p]);
      if front.Some? && last.Some? {
        assert (front.value + [last.value])[..|front.value|] == front.value;
      }
    }
  }

  // ---- Versions ---------------------------------------------------------------------------

  lemma CoreParts(v: Release)
    ensures '-' !in CoreText(v) && '+' !in CoreText(v)
    ensures Split(CoreText(v), '.') == [Digits(v.major), Digits(v.minor), Digits(v.patch)]
  {
    hide Digits, Split, Join;
    var parts := [Digits(v.major), Digits(v.minor), Digits(v.patch)];
    assert forall i :: 0 <= i < |parts| ==> AllDigits(parts[i]);
    SplitOfJoin(parts, '.');
    ThreeParts(parts);
  }

  lemma {:induction false} JoinAvoids(parts: seq<string>, c: char, other: char)
    requires parts != [] && other != c && forall i :: 0 <= i < |parts| ==> other !in parts[i]
    ensures other !in Join(parts, c)
  {
    if |parts| > 1 { JoinAvoids(parts[1..], c, other); }
  }

  lemma PrereleaseParts(ids: seq<Identifier>)
    requires ids != [] && forall i :: 0 <= i < |ids| ==> ValidIdentifier(ids[i])
    ensures Split(Join(IdentifierTexts(ids), '.'), '.') == IdentifierTexts(ids)
    ensures '+' !in Join(IdentifierTexts(ids), '.')
  {
    hide ValidIdentifier, IdentifierText, Join, Split;
    forall i | 0 <= i < |ids| ensures '.' !in IdentifierTexts(ids)[i] && '+' !in IdentifierTexts(ids)[i] {
      IdentifierIff(IdentifierText(ids[i]), ids[i]);
    }
    SplitOfJoin(IdentifierTexts(ids), '.');
    JoinAvoids(IdentifierTexts(ids), '.', '+');
  }

  lemma PrintedParses(v: Release)
    requires Valid(v)
    ensures ParseBare(Normalized(v)) == Some(v)
  {
    hide Digits, ParseCoreNumber, Split, Join, ParseIdentifiers, CoreText, ValidIdentifier, Find;
    CoreParts(v);
    NumberIff(Digits(v.major), v.major);
    NumberIff(Digits(v.minor), v.minor);
    NumberIff(Digits(v.patch), v.patch);
    var s := Normalized(v);
    if v.prerelease == [] {
      FindIn(CoreText(v), '-', []);
      assert s[..|s|] == CoreText(v);
    } else {
      var tail := Join(IdentifierTexts(v.prerelease), '.');
      FindIn(CoreText(v), '-', tail);
      assert s == CoreText(v) + ['-'] + tail;
      assert s[..|CoreText(v)|] == CoreText(v) && s[|CoreText(v)| + 1..] == tail;
      PrereleaseParts(v.prerelease);
      IdentifiersIff(IdentifierTexts(v.prerelease), v.prerelease);
    }
  }

  lemma ParsedIsPrinted(s: string, v: Release)
    requires ParseBare(s) == Some(v)
    ensures Valid(v) && s == Normalized(v)
  {
    hide Digits, ParseCoreNumber, Split, Join, ParseIdentifiers, ValidIdentifier, Find, IdentifierTexts;
    var dash := Find(s, '-');
    var core := Split(s[..dash], '.');
    NumberIff(core[0], v.major);
    NumberIff(core[1], v.minor);
    NumberIff(core[2], v.patch);
    JoinOfSplit(s[..dash], '.');
    ThreeParts(core);
    if dash < |s| {
      var parts := Split(s[dash + 1..], '.');
      IdentifiersIff(parts, v.prerelease);
      JoinOfSplit(s[dash + 1..], '.');
      assert s == s[..dash] + ['-'] + s[dash + 1..];
      assert |IdentifierTexts(v.prerelease)| == |v.prerelease|;
    } else {
      assert s[..dash] == s;
    }
  }

  lemma ThreeParts(parts: seq<string>)
    requires |parts| == 3
    ensures Join(parts, '.') == parts[0] + "." + parts[1] + "." + parts[2]
  {
    assert parts[1..][1..] == [parts[2]];
    assert Join(parts[1..], '.') == parts[1] + "." + parts[2];
  }

  /**
   * A source parses to a version exactly when, without its leading `v` and its build metadata, it is that
   * valid version printed: printing and parsing are inverse, and nothing else is accepted.
   */
  lemma ParseIff(source: string, v: Release)
    ensures Parse(source) == Some(v) <==> Valid(v) && Bare(source) == Normalized(v)
  {
    hide ParseBare, Bare, Normalized, Valid;
    if Parse(source) == Some(v) { ParsedIsPrinted(Bare(source), v); }
    if Valid(v) && Bare(source) == Normalized(v) { PrintedParses(v); }
  }

  /** A printed version parses back to itself, with a `v` in front or not, and with metadata behind or not. */
  lemma VersionRoundTrip(v: Release, metadata: string)
    requires Valid(v)
    ensures Parse(Normalized(v)) == Some(v) && Parse("v" + Normalized(v)) == Some(v)
    ensures Parse(Normalized(v) + "+" + metadata) == Some(v)
  {
    hide ParseBare, Valid, Find, Join, Digits;
    PrintedParses(v);
    CoreParts(v);
    DigitsValue(v.major);
    if v.prerelease != [] { PrereleaseParts(v.prerelease) by { ValidParts(v); } }
    var s := Normalized(v);
    assert s[0] == Digits(v.major)[0];
    assert '+' !in s;
    FindIn(s, '+', metadata);
    assert s[..|s|] == s;
    var tagged := s + "+" + metadata;
    assert tagged == s + ['+'] + metadata;
    assert tagged[0] == s[0] && tagged[..|s|] == s;
    assert ("v" + s)[1..] == s;
  }

  lemma ValidParts(v: Release)
    requires Valid(v)
    ensures forall i :: 0 <= i < |v.prerelease| ==> ValidIdentifier(v.prerelease[i])
  {
  }

  // ---- The order --------------------------------------------------------------------------

  function Flip(o: Ordering): Ordering { match o case Less => Greater case Equal => Equal case Greater => Less }

  lemma IdentifiersAreOrdered(a: Identifier, b: Identifier, c: Identifier)
    ensures CompareIdentifiers(a, b) == Equal <==> a == b
    ensures CompareIdentifiers(b, a) == Flip(CompareIdentifiers(a, b))
    ensures CompareIdentifiers(a, b) == Less && CompareIdentifiers(b, c) == Less ==> CompareIdentifiers(a, c) == Less
  {
    if a.Word? && b.Word? {
      PrecedesIsTotal(a.text, b.text);
      if c.Word? && Precedes(a.text, b.text) && Precedes(b.text, c.text) {
        PrecedesIsTransitive(a.text, b.text, c.text);
        PrecedesIsTotal(a.text, c.text);
      }
    }
  }

  /** Where two prereleases first differ, if they do. */
  ghost predicate DifferAt(a: seq<Identifier>, b: seq<Identifier>, i: nat) {
    i <= |a| && i <= |b| && a[..i] == b[..i] && (i < |a| && i < |b| ==> a[i] != b[i])
  }

  /**
   * Section 11 of SemVer 2.0.0: prereleases compare at their first difference, numbers below words, numbers
   * by value and words in ASCII order; when one runs out first, the longer one is greater.
   */
  lemma {:induction false} PrereleaseOrder(a: seq<Identifier>, b: seq<Identifier>, i: nat)
    requires DifferAt(a, b, i)
    ensures ComparePrereleases(a, b) ==
      if i < |a| && i < |b| then CompareIdentifiers(a[i], b[i]) else CompareNumbers(|a|, |b|)
  {
    if i > 0 {
      assert a[0] == a[..i][0] == b[..i][0] == b[0];
      IdentifiersAreOrdered(a[0], b[0], b[0]);
      assert a[1..][..i - 1] == a[..i][1..] && b[1..][..i - 1] == b[..i][1..];
      PrereleaseOrder(a[1..], b[1..], i - 1);
    } else if a != [] && b != [] {
      IdentifiersAreOrdered(a[0], b[0], b[0]);
    }
  }

  lemma {:induction false} PrereleasesAreOrdered(a: seq<Identifier>, b: seq<Identifier>, c: seq<Identifier>)
    ensures ComparePrereleases(a, b) == Equal <==> a == b
    ensures ComparePrereleases(b, a) == Flip(ComparePrereleases(a, b))
    ensures ComparePrereleases(a, b) == Less && ComparePrereleases(b, c) == Less ==> ComparePrereleases(a, c) == Less
  {
    hide CompareIdentifiers;
    if a != [] && b != [] {
      var z := if c == [] then b[0] else c[0];
      IdentifiersAreOrdered(a[0], b[0], z);
      IdentifiersAreOrdered(b[0], z, z);
      assert a == [a[0]] + a[1..] && b == [b[0]] + b[1..];
      PrereleasesAreOrdered(a[1..], b[1..], if c == [] then [] else c[1..]);
    }
  }

  /** The order is total and consistent with equality. */
  lemma ReleasesAreOrdered(a: Release, b: Release, c: Release)
    ensures Compare(a, b) == Equal <==> a == b
    ensures Compare(b, a) == Flip(Compare(a, b))
    ensures Compare(a, b) == Less && Compare(b, c) == Less ==> Compare(a, c) == Less
  {
    hide ComparePrereleases;
    PrereleasesAreOrdered(a.prerelease, b.prerelease, c.prerelease);
  }

  /** Section 11 of SemVer 2.0.0: a number is below a word, numbers by value, words by character. */
  predicate IdentifierBelow(a: Identifier, b: Identifier) {
    if a.Numeric? then b.Word? || a.value < b.value else b.Word? && Precedes(a.text, b.text)
  }

  ghost predicate PrereleaseBelow(a: seq<Identifier>, b: seq<Identifier>) {
    exists i: nat :: DifferAt(a, b, i)
      && (if i < |a| && i < |b| then IdentifierBelow(a[i], b[i]) else i == |a| < |b|)
  }

  predicate SameCore(a: Release, b: Release) { a.major == b.major && a.minor == b.minor && a.patch == b.patch }

  ghost predicate Below(a: Release, b: Release) {
    || a.major < b.major
    || (a.major == b.major && a.minor < b.minor)
    || (a.major == b.major && a.minor == b.minor && a.patch < b.patch)
    || (SameCore(a, b) && a.prerelease != [] && b.prerelease == [])
    || (SameCore(a, b) && a.prerelease != [] && b.prerelease != [] && PrereleaseBelow(a.prerelease, b.prerelease))
  }

  lemma {:induction false} Differ(a: seq<Identifier>, b: seq<Identifier>) returns (i: nat)
    ensures DifferAt(a, b, i)
  {
    i := 0;
    if a != [] && b != [] && a[0] == b[0] {
      var rest := Differ(a[1..], b[1..]);
      i := rest + 1;
      assert a[..i] == [a[0]] + a[1..][..rest] && b[..i] == [b[0]] + b[1..][..rest];
    }
  }

  /** Precedence is by major, then minor, then patch, then a release above its prereleases, then the prereleases. */
  lemma Precedence(a: Release, b: Release)
    ensures Compare(a, b) == Less <==> Below(a, b)
    ensures Compare(a, b) == Greater <==> Below(b, a)
  {
    LessIsBelow(a, b);
    LessIsBelow(b, a);
    ReleasesAreOrdered(a, b, b);
  }

  lemma LessIsBelow(a: Release, b: Release)
    ensures Compare(a, b) == Less <==> Below(a, b)
  {
    PrereleaseLess(a.prerelease, b.prerelease);
    hide PrereleaseBelow;
  }

  lemma PrereleaseLess(a: seq<Identifier>, b: seq<Identifier>)
    ensures ComparePrereleases(a, b) == Less <==> PrereleaseBelow(a, b)
  {
    var i := Differ(a, b);
    PrereleaseOrder(a, b, i);
    if i < |a| && i < |b| { LessIdentifier(a[i], b[i]); }
    if PrereleaseBelow(a, b) {
      var j: nat :| DifferAt(a, b, j) && if j < |a| && j < |b| then IdentifierBelow(a[j], b[j]) else j == |a| < |b|;
      PrereleaseOrder(a, b, j);
      if j < |a| && j < |b| { LessIdentifier(a[j], b[j]); }
    }
  }

  lemma LessIdentifier(a: Identifier, b: Identifier)
    ensures CompareIdentifiers(a, b) == Less <==> IdentifierBelow(a, b)
  {
    if a.Word? && b.Word? { PrecedesIsTotal(a.text, b.text); }
  }

  // ---- Updates ----------------------------------------------------------------------------

  predicate Wanted(v: Release, above: Release, stable: bool, either: bool) {
    (either || (v.prerelease == []) == stable) && Compare(v, above) == Greater
  }

  lemma {:induction false} NewestIsMaximum(candidates: seq<Release>, above: Release, stable: bool, either: bool)
    ensures var newest := Newest(candidates, above, stable, either);
      && (newest.Some? ==> newest.value in candidates && Wanted(newest.value, above, stable, either))
      && (forall v :: v in candidates && Wanted(v, above, stable, either) ==>
           newest.Some? && Compare(newest.value, v) != Less)
  {
    hide Compare;
    if candidates != [] {
      var front, last := candidates[..|candidates| - 1], candidates[|candidates| - 1];
      NewestIsMaximum(front, above, stable, either);
      assert candidates == front + [last];
      var before, newest := Newest(front, above, stable, either), Newest(candidates, above, stable, either);
      forall v | v in candidates && Wanted(v, above, stable, either)
        ensures newest.Some? && Compare(newest.value, v) != Less
      {
        ReleasesAreOrdered(last, last, last);
        if before.Some? {
          ReleasesAreOrdered(before.value, last, last);
          ReleasesAreOrdered(last, v, before.value);
          ReleasesAreOrdered(v, last, before.value);
          ReleasesAreOrdered(before.value, v, last);
          ReleasesAreOrdered(last, before.value, v);
        }
      }
    }
  }

  /**
   * The update offered is a candidate strictly newer than what is installed, and there is one exactly when
   * some candidate is newer. No newer candidate of the preferred class beats it: over a stable installation
   * stable versions are preferred whenever one of them is newer.
   */
  lemma UpdateIsBest(installed: Release, candidates: seq<Release>)
    ensures var selected := SelectUpdate(installed, candidates);
      && (selected.Some? ==> selected.value in candidates && Compare(selected.value, installed) == Greater)
      && (selected.Some? <==> exists v :: v in candidates && Compare(v, installed) == Greater)
      && (forall v :: v in candidates && Compare(v, installed) == Greater
           && (installed.prerelease != []
                || (v.prerelease == []) == (selected.Some? && selected.value.prerelease == []))
           ==> selected.Some? && Compare(selected.value, v) != Less)
      && ((installed.prerelease == []
           && exists v :: v in candidates && v.prerelease == [] && Compare(v, installed) == Greater)
           ==> selected.Some? && selected.value.prerelease == [])
  {
    hide Compare;
    NewestIsMaximum(candidates, installed, true, true);
    NewestIsMaximum(candidates, installed, true, false);
    NewestIsMaximum(candidates, installed, false, false);
  }

  // ---- The notice -------------------------------------------------------------------------

  /** A line of remote tags that names this version: anything, a tab, and the tag. */
  ghost predicate NamesVersion(line: string, v: Release) {
    exists i :: 0 <= i < |line| && '\t' !in line[..i] && IsTag(line, i, v)
  }

  ghost predicate IsTag(line: string, i: nat, v: Release) {
    i < |line| && line[i] == '\t' && "refs/tags/v" <= line[i + 1..] && Parse(line[i + 1..][11..]) == Some(v)
  }

  lemma CandidateIff(line: string, v: Release)
    ensures Candidate(line) == Some(v) <==> NamesVersion(line, v)
  {
    hide Parse;
    var tab := Find(line, '\t');
    FindFirst(line, '\t');
    assert forall i :: 0 <= i < tab ==> line[i] != '\t';
    if tab < |line| {
      assert '\t' !in line[..tab];
      assert |"refs/tags/v"| == 11;
      assert Candidate(line) == Some(v) ==> IsTag(line, tab, v);
      assert forall i :: tab < i < |line| ==> line[..i][tab] == '\t';
    }
  }

  lemma {:induction false} FindFirst(s: string, c: char)
    ensures forall i :: 0 <= i < Find(s, c) ==> s[i] != c
    ensures Find(s, c) < |s| ==> s[Find(s, c)] == c
  {
    if s != [] && s[0] != c { FindFirst(s[1..], c); }
  }

  lemma CandidatesPush(front: seq<string>, last: string, v: Release)
    ensures v in Candidates(front + [last]) <==> v in Candidates(front) || Candidate(last) == Some(v)
  {
    hide Candidate;
    assert (front + [last])[..|front|] == front;
  }

  lemma {:induction false} CandidatesAre(lines: seq<string>, v: Release)
    ensures v in Candidates(lines) <==> exists i :: 0 <= i < |lines| && NamesVersion(lines[i], v)
  {
    if lines != [] {
      hide Candidate, NamesVersion, Candidates;
      var front, last := lines[..|lines| - 1], lines[|lines| - 1];
      CandidatesAre(front, v);
      CandidateIff(last, v);
      CandidatesPush(front, last, v);
      assert front + [last] == lines;
      assert forall i :: 0 <= i < |front| ==> lines[i] == front[i];
    }
  }

  ghost predicate IsNewer(tags: string, v: Release, installed: Release) {
    Compare(v, installed) == Greater && exists i :: 0 <= i < |Lines(tags)| && NamesVersion(Lines(tags)[i], v)
  }

  /**
   * Nothing newer beats it, but a prerelease over a stable version may: those come first over a stable installation.
   */
  ghost predicate IsOffered(tags: string, v: Release, installed: Release) {
    && IsNewer(tags, v, installed)
    && (forall u :: IsNewer(tags, u, installed) && Compare(u, v) == Greater ==>
          installed.prerelease == [] && u.prerelease != [] && v.prerelease == [])
    && (installed.prerelease == [] && v.prerelease != [] ==>
          forall u :: IsNewer(tags, u, installed) ==> u.prerelease != [])
  }

  function NoticeText(v: Release): string {
    "Update available: " + Normalized(v) + " \U{2022} install the latest ramo release"
  }

  /**
   * There is a notice exactly when the installed version can be read and some tag names a newer one; it names the
   * newest, among the stable ones if the installed one is stable and one of them is newer.
   */
  lemma NoticeIff(installedVersion: string, tags: string)
    ensures var notice, installed := SelectRemoteUpdateNotice(installedVersion, tags), Parse(installedVersion);
      && (notice.Some? <==> installed.Some? && exists v :: IsNewer(tags, v, installed.value))
      && (notice.Some? ==>
        (exists v :: IsOffered(tags, v, installed.value) && notice.value == NoticeText(v)))
  {
    hide Parse, Compare, Candidates, SelectUpdate, Normalized;
    var installed := Parse(installedVersion);
    if installed.Some? {
      var candidates := Candidates(Lines(tags));
      forall v ensures IsNewer(tags, v, installed.value) <==>
        v in candidates && Compare(v, installed.value) == Greater {
        CandidatesAre(Lines(tags), v);
      }
      hide IsNewer;
      UpdateIsBest(installed.value, candidates);
      var selected := SelectUpdate(installed.value, candidates);
      if selected.Some? {
        var v := selected.value;
        forall u | IsNewer(tags, u, installed.value) && Compare(u, v) == Greater
          ensures installed.value.prerelease == [] && u.prerelease != [] && v.prerelease == []
        {
          ReleasesAreOrdered(u, v, v);
        }
        assert IsOffered(tags, v, installed.value);
      }
    }
  }
}
