/** Writing a forest as markup and parsing it gives the forest back, without errors. */
module StmlRoundTrip {
  import opened Text
  import opened DiffModel
  import opened Sanitize
  import opened StmlParse
  import opened StmlProofs
  import opened StmlTree

  // ---- Documents --------------------------------------------------------------------------

  /** A forest with its attributes in the order they are written. */
  datatype Doc = DocText(text: string) | DocElement(tag: string, attrs: seq<(string, string)>, children: seq<Doc>)

  function AddAll(attrs: map<string, string>, more: seq<(string, string)>): map<string, string>
    decreases |more|
  {
    if more == [] then attrs else AddAll(attrs[more[0].0 := more[0].1], more[1..])
  }

  function TreeOf(doc: Doc): StmlNode {
    match doc
    case DocText(text) => StmlText(text)
    case DocElement(tag, attrs, children) => StmlElement(tag, AddAll(map[], attrs), Trees(children))
  }

  function Trees(docs: seq<Doc>): (trees: seq<StmlNode>)
    ensures |trees| == |docs|
  {
    if docs == [] then [] else [TreeOf(docs[0])] + Trees(docs[1..])
  }

  function AttrsText(attrs: seq<(string, string)>): string {
    if attrs == [] then "" else " " + attrs[0].0 + "=\"" + attrs[0].1 + "\"" + AttrsText(attrs[1..])
  }

  function OpenText(tag: string, attrs: seq<(string, string)>): string { "<" + tag + (AttrsText(attrs) + ">") }

  function CloseText(tag: string): string { "</" + tag + ">" }

  /** A document written as markup; a void element has no closing tag. */
  function WriteOne(doc: Doc): string {
    match doc
    case DocText(text) => text
    case DocElement(tag, attrs, children) =>
      OpenText(tag, attrs) + (if IsVoid(tag) then "" else Write(children) + CloseText(tag))
  }

  function Write(docs: seq<Doc>): string { if docs == [] then "" else WriteOne(docs[0]) + Write(docs[1..]) }

  /** A lower-case tag or attribute name. */
  predicate NameOk(name: string) {
    name != "" && forall i :: 0 <= i < |name| ==> IsNameChar(name[i]) && !('A' <= name[i] <= 'Z')
  }

  ghost predicate AttrsOk(attrs: seq<(string, string)>) {
    forall i :: 0 <= i < |attrs| ==>
      NameOk(attrs[i].0) && '"' !in attrs[i].1 && Sanitized(attrs[i].1, false) == attrs[i].1
  }

  /** The text of a code element must not hold its own closing tag, in any case. */
  ghost predicate RawOk(tag: string, text: string) {
    && Sanitized(text, false) == text
    && forall i :: 0 <= i < |text| ==> !MatchesAt(Lower(text + CloseText(tag)), "</" + tag, i)
  }

  /**
   * What can be written: clean texts without markup, named elements; void ones empty, code ones with a text at most.
   */
  ghost predicate DocOk(doc: Doc) {
    match doc
    case DocText(text) => text != "" && '<' !in text && Sanitized(text, false) == text
    case DocElement(tag, attrs, children) =>
      && NameOk(tag) && IsAlpha(tag[0]) && AttrsOk(attrs)
      && (if IsVoid(tag) then children == []
          else if IsRaw(tag) then
            (children == [] && RawOk(tag, ""))
            || (|children| == 1 && children[0].DocText? && children[0].text != "" && RawOk(tag, children[0].text))
          else DocsOk(children))
  }

  ghost predicate DocsOk(docs: seq<Doc>) {
    docs == [] || (
      && DocOk(docs[0]) && DocsOk(docs[1..])
      && (|docs| > 1 ==> !(docs[0].DocText? && docs[1].DocText?)))
  }

  function Nodes(docs: seq<Doc>): nat { if docs == [] then 0 else NodesOne(docs[0]) + Nodes(docs[1..]) }

  function NodesOne(doc: Doc): nat { if doc.DocText? then 1 else 1 + Nodes(doc.children) }

  /** How deep elements are nested. */
  function Height(docs: seq<Doc>): nat { if docs == [] then 0 else Max(HeightOne(docs[0]), Height(docs[1..])) }

  function HeightOne(doc: Doc): nat { if doc.DocText? then 0 else 1 + Height(doc.children) }

  // ---- Building ---------------------------------------------------------------------------

  /** Appending whole documents under the innermost open element. */
  function BuildOne(ps: ParserState, doc: Doc): ParserState
    decreases doc, 0
  {
    match doc
    case DocText(text) => Append(ps, TextNode(text))
    case DocElement(tag, attrs, children) =>
      Build(Opened(ps, tag, attrs), children).(stack := ps.stack)
  }

  function Build(ps: ParserState, docs: seq<Doc>): ParserState
    decreases docs, 1
  {
    if docs == [] then ps else Build(BuildOne(ps, docs[0]), docs[1..])
  }

  function Opened(ps: ParserState, tag: string, attrs: seq<(string, string)>): ParserState {
    Append(ps, Element(tag, AddAll(map[], attrs), [])).(stack := ps.stack + [|ps.arena|])
  }

  ghost predicate TopOk(ps: ParserState) { ps.stack == [] || IsElement(ps.arena, Top(ps)) }

  /** The subtree at i is the document, using only nodes from lo on. */
  ghost predicate Rep(arena: seq<ArenaNode>, lo: nat, i: nat, doc: Doc)
    decreases doc
  {
    lo <= i < |arena| &&
    match doc
    case DocText(text) => arena[i] == TextNode(text)
    case DocElement(tag, attrs, children) =>
      arena[i].Element? && arena[i].tag == tag && arena[i].attrs == AddAll(map[], attrs)
      && RepAll(arena, lo, arena[i].children, children)
  }

  ghost predicate RepAll(arena: seq<ArenaNode>, lo: nat, ids: seq<nat>, docs: seq<Doc>)
    decreases docs
  {
    |ids| == |docs| && (docs == [] || (Rep(arena, lo, ids[0], docs[0]) && RepAll(arena, lo, ids[1..], docs[1..])))
  }

  /** Nodes from lo on are the same in both arenas. */
  ghost predicate Agree(a: seq<ArenaNode>, b: seq<ArenaNode>, lo: nat) {
    |a| <= |b| && forall j :: lo <= j < |a| ==> a[j] == b[j]
  }

  lemma {:induction false} RepStays(a: seq<ArenaNode>, b: seq<ArenaNode>, lo: nat, less: nat, i: nat, doc: Doc)
    requires Rep(a, lo, i, doc) && less <= lo && Agree(a, b, lo)
    ensures Rep(b, less, i, doc)
    decreases doc
  {
    if doc.DocElement? { AllStay(a, b, lo, less, a[i].children, doc.children); }
  }

  lemma {:induction false} AllStay(a: seq<ArenaNode>, b: seq<ArenaNode>, lo: nat, less: nat, ids: seq<nat>,
                                   docs: seq<Doc>)
    requires RepAll(a, lo, ids, docs) && less <= lo && Agree(a, b, lo)
    ensures RepAll(b, less, ids, docs)
    decreases docs
  {
    if docs != [] {
      RepStays(a, b, lo, less, ids[0], docs[0]);
      AllStay(a, b, lo, less, ids[1..], docs[1..]);
    }
  }

  /** From ps to t the siblings of the place being filled gain `ids`; nothing else below |ps.arena| changes. */
  ghost predicate Gained(ps: ParserState, t: ParserState, ids: seq<nat>) {
    && t.stack == ps.stack && t.errors == ps.errors && t.nodeLimitReported == ps.nodeLimitReported
    && |ps.arena| <= |t.arena|
    && (forall j :: 0 <= j < |ps.arena| && (ps.stack == [] || j != Top(ps)) ==> t.arena[j] == ps.arena[j])
    && (ps.stack == [] ==> t.roots == ps.roots + ids)
    && (ps.stack != [] && TopOk(ps) ==>
          t.roots == ps.roots && IsElement(t.arena, Top(ps))
          && t.arena[Top(ps)] == ps.arena[Top(ps)].(children := ps.arena[Top(ps)].children + ids))
  }

  lemma AppendGains(ps: ParserState, node: ArenaNode)
    requires TopOk(ps)
    ensures var t := Append(ps, node);
      Gained(ps, t, [|ps.arena|]) && |t.arena| == |ps.arena| + 1 && t.arena[|ps.arena|] == node && TopOk(t)
  {
  }

  lemma GainsAdd(a: ParserState, b: ParserState, c: ParserState, m: seq<nat>, n: seq<nat>)
    requires TopOk(a) && Gained(a, b, m) && Gained(b, c, n)
    ensures Gained(a, c, m + n) && TopOk(b)
  {
    assert a.roots + m + n == a.roots + (m + n);
    if a.stack != [] {
      var kids := a.arena[Top(a)].children;
      assert kids + m + n == kids + (m + n);
    }
  }

  lemma NothingGained(ps: ParserState)
    ensures Gained(ps, ps, [])
  {
    assert ps.roots + [] == ps.roots;
    if ps.stack != [] && TopOk(ps) {
      var node := ps.arena[Top(ps)];
      assert node.children + [] == node.children;
    }
  }

  /** After a node was inside and filled, it is what the place around it gained. */
  lemma FilledGains(ps: ParserState, tag: string, attrs: seq<(string, string)>, filled: ParserState, ids: seq<nat>)
    requires TopOk(ps) && Gained(Opened(ps, tag, attrs), filled, ids)
    ensures var n := |ps.arena|;
      && Gained(ps, filled.(stack := ps.stack), [n])
      && n < |filled.arena| && filled.arena[n] == Element(tag, AddAll(map[], attrs), ids)
  {
    var n, node := |ps.arena|, Element(tag, AddAll(map[], attrs), []);
    AppendGains(ps, node);
    var inside := Opened(ps, tag, attrs);
    assert Top(inside) == n && inside.arena[n] == node;
    assert [] + ids == ids;
    assert ps.stack != [] ==> Top(ps) < n;
  }

  lemma {:induction false} BuildOneGains(ps: ParserState, doc: Doc)
    requires TopOk(ps)
    ensures var t := BuildOne(ps, doc);
      && Gained(ps, t, [|ps.arena|]) && |t.arena| == |ps.arena| + NodesOne(doc)
      && Rep(t.arena, |ps.arena|, |ps.arena|, doc)
    decreases doc, 0
  {
    match doc
    case DocText(text) => AppendGains(ps, TextNode(text));
    case DocElement(tag, attrs, children) =>
      var n, inside := |ps.arena|, Opened(ps, tag, attrs);
      AppendGains(ps, Element(tag, AddAll(map[], attrs), []));
      assert Top(inside) == n;
      var ids := BuildGains(inside, children);
      hide Build, Gained, Append;
      FilledGains(ps, tag, attrs, Build(inside, children), ids);
      AllStay(Build(inside, children).arena, Build(inside, children).arena, n + 1, n, ids, children);
  }

  lemma {:induction false} BuildGains(ps: ParserState, docs: seq<Doc>) returns (ids: seq<nat>)
    requires TopOk(ps)
    ensures var t := Build(ps, docs);
      Gained(ps, t, ids) && |t.arena| == |ps.arena| + Nodes(docs) && RepAll(t.arena, |ps.arena|, ids, docs)
    decreases docs, 1
  {
    if docs == [] {
      ids := [];
      NothingGained(ps);
    } else {
      var n, first := |ps.arena|, BuildOne(ps, docs[0]);
      BuildOneGains(ps, docs[0]);
      assert TopOk(first);
      var rest := BuildGains(first, docs[1..]);
      ids := [n] + rest;
      var t := Build(first, docs[1..]);
      GainsAdd(ps, first, t, [n], rest);
      RestAgrees(ps, first, t, rest);
      hide Build, BuildOne, Gained;
      RepStays(first.arena, t.arena, n, n, n, docs[0]);
      AllStay(t.arena, t.arena, |first.arena|, n, rest, docs[1..]);
      assert ids[0] == n && ids[1..] == rest;
    }
  }

  lemma RestAgrees(ps: ParserState, first: ParserState, t: ParserState, rest: seq<nat>)
    requires TopOk(ps) && first.stack == ps.stack && |ps.arena| <= |first.arena| && Gained(first, t, rest)
    ensures Agree(first.arena, t.arena, |ps.arena|)
  {
  }

  // ---- Reading what was written -----------------------------------------------------------

  /** `part` stands in s at o. */
  predicate At(s: string, o: nat, part: string) { o + |part| <= |s| && s[o..o + |part|] == part }

  lemma AtParts(s: string, o: nat, a: string, b: string)
    requires At(s, o, a + b)
    ensures At(s, o, a) && At(s, o + |a|, b)
  {
    var whole := s[o..o + |a + b|];
    assert s[o..o + |a|] == whole[..|a|] && s[o + |a|..o + |a| + |b|] == whole[|a|..];
    assert (a + b)[..|a|] == a && (a + b)[|a|..] == b;
  }

  lemma AtChar(s: string, o: nat, part: string, i: nat)
    requires At(s, o, part) && i < |part|
    ensures s[o + i] == part[i]
  {
    assert s[o..o + |part|][i] == s[o + i];
  }

  lemma {:induction false} NameEndsAt(s: string, from: nat, end: nat)
    requires from <= end <= |s| && (end < |s| ==> !IsNameChar(s[end]))
    requires forall i :: from <= i < end ==> IsNameChar(s[i])
    ensures NameEnd(s, from) == end
    decreases end - from
  {
    if from < end { NameEndsAt(s, from + 1, end); }
  }

  lemma {:induction false} FoundAt(s: string, c: char, from: nat, end: nat)
    requires from <= end <= |s| && (end < |s| ==> s[end] == c) && forall i :: from <= i < end ==> s[i] != c
    ensures Find(s, c, from) == end
    decreases end - from
  {
    if from < end { FoundAt(s, c, from + 1, end); }
  }

  lemma LowerStays(name: string)
    requires NameOk(name)
    ensures Lower(name) == name
  {
  }

  /** A name standing in the text, with something else after it, is read. */
  lemma NameIsRead(s: string, o: nat, name: string)
    requires NameOk(name) && At(s, o, name) && o + |name| < |s| && !IsNameChar(s[o + |name|])
    ensures NameEnd(s, o) == o + |name| && Lower(s[o..o + |name|]) == name
  {
    forall i | o <= i < o + |name| ensures IsNameChar(s[i]) { AtChar(s, o, name, i - o); }
    NameEndsAt(s, o, o + |name|);
    LowerStays(name);
  }

  /** Where the pieces of a written attribute stand. */
  lemma AttributePieces(s: string, at: nat, name: string, value: string, rest: string)
    requires At(s, at, " " + name + "=\"" + value + "\"" + rest)
    ensures At(s, at, " ") && At(s, at + 1, name) && At(s, at + 1 + |name|, "=\"") && At(s, at + 3 + |name|, value)
    ensures At(s, at + 3 + |name| + |value|, "\"") && At(s, at + 4 + |name| + |value|, rest)
  {
    var a, b, c := " " + name, " " + name + "=\"", " " + name + "=\"" + value;
    AtParts(s, at, c + "\"", rest);
    AtParts(s, at, c, "\"");
    AtParts(s, at, b, value);
    AtParts(s, at, a, "=\"");
    AtParts(s, at, " ", name);
  }

  /** A name, an equals sign and a quoted value are read as that attribute. */
  lemma OneAttribute(s: string, at: nat, name: string, value: string, rest: string)
    requires NameOk(name) && '"' !in value && At(s, at, " " + name + "=\"" + value + "\"" + rest)
    ensures var p := at + 1;
      var end := p + |name|;
      var next := end + 3 + |value|;
      && next <= |s| && At(s, next, rest) && SkipSpace(s, at) == p
      && s[p] != '>' && s[p] != '/' && NameEnd(s, p) == end && Lower(s[p..end]) == name
      && AfterName(s, end) == (value, next)
  {
    AttributePieces(s, at, name, value, rest);
    hide NameEnd, Lower, AfterName, At;
    var p, end := at + 1, at + 1 + |name|;
    AtChar(s, at, " ", 0);
    AtChar(s, p, name, 0);
    AtChar(s, end, "=\"", 0);
    AtChar(s, end, "=\"", 1);
    NameIsRead(s, p, name);
    assert IsNameChar(name[0]);
    ValueIsRead(s, end, value);
  }

  lemma ValueIsRead(s: string, end: nat, value: string)
    requires '"' !in value && At(s, end, "=\"") && At(s, end + 2, value) && At(s, end + 2 + |value|, "\"")
    ensures AfterName(s, end) == (value, end + 3 + |value|)
  {
    AtChar(s, end, "=\"", 0);
    AtChar(s, end, "=\"", 1);
    var from := end + 2;
    AtChar(s, from + |value|, "\"", 0);
    forall i | from <= i < from + |value| ensures s[i] != '"' { AtChar(s, from, value, i - from); }
    FoundAt(s, '"', from, from + |value|);
    hide Find;
  }

  lemma {:induction false} AttributesAreRead(s: string, tag: string, acc: map<string, string>,
                                             attrs: seq<(string, string)>, at: nat)
    requires AttrsOk(attrs) && At(s, at, AttrsText(attrs) + ">")
    ensures ReadAttributes(s, tag, acc, at)
         == Some(OpenTag(tag, AddAll(acc, attrs), false, at + |AttrsText(attrs)| + 1))
    decreases |attrs|
  {
    hide *;
    if attrs == [] {
      NoAttributes(s, tag, acc, at);
    } else {
      var (name, value) := attrs[0];
      FirstOk(attrs);
      AttrsSplit(attrs);
      AddAllFirst(acc, attrs);
      OneAttribute(s, at, name, value, AttrsText(attrs[1..]) + ">");
      var next := at + 4 + |name| + |value|;
      AttributesAreRead(s, tag, acc[name := value], attrs[1..], next);
      AttributeStep(s, tag, acc, at, name, value, next);
    }
  }

  lemma FirstOk(attrs: seq<(string, string)>)
    requires AttrsOk(attrs) && attrs != []
    ensures var (name, value) := attrs[0];
      NameOk(name) && name != "" && '"' !in value && Sanitized(value, false) == value && AttrsOk(attrs[1..])
  {
    hide Sanitized;
  }

  lemma AddAllFirst(acc: map<string, string>, attrs: seq<(string, string)>)
    requires attrs != []
    ensures AddAll(acc, attrs) == AddAll(acc[attrs[0].0 := attrs[0].1], attrs[1..])
  {
  }

  lemma NoAttributes(s: string, tag: string, acc: map<string, string>, at: nat)
    requires At(s, at, AttrsText([]) + ">")
    ensures ReadAttributes(s, tag, acc, at) == Some(OpenTag(tag, acc, false, at + 1)) && AddAll(acc, []) == acc
    ensures AttrsText([]) == ""
  {
    assert AttrsText([]) + ">" == ">";
    AtChar(s, at, ">", 0);
  }

  lemma AttrsSplit(attrs: seq<(string, string)>)
    requires attrs != []
    ensures var (name, value) := attrs[0];
      var rest := AttrsText(attrs[1..]);
      && AttrsText(attrs) + ">" == " " + name + "=\"" + value + "\"" + (rest + ">")
      && |AttrsText(attrs)| == 4 + |name| + |value| + |rest|
  {
  }

  lemma AttributeStep(s: string, tag: string, acc: map<string, string>, at: nat, name: string, value: string, next: nat)
    requires at <= |s| && next <= |s| && Sanitized(value, false) == value && name != ""
    requires var p := at + 1; var end := p + |name|;
      && end <= |s| && p < |s| && SkipSpace(s, at) == p && s[p] != '>' && s[p] != '/'
      && NameEnd(s, p) == end && Lower(s[p..end]) == name && AfterName(s, end) == (value, next)
    ensures at < next && ReadAttributes(s, tag, acc, at) == ReadAttributes(s, tag, acc[name := value], next)
  {
    hide SkipSpace, NameEnd, AfterName, Lower, Sanitized;
    assert AfterName(s, at + 1 + |name|).1 == next;
  }

  lemma OpenTagIsRead(s: string, o: nat, tag: string, attrs: seq<(string, string)>)
    requires NameOk(tag) && AttrsOk(attrs) && At(s, o, OpenText(tag, attrs))
    ensures o < |s|
    ensures ReadOpenTag(s, o) == Some(OpenTag(tag, AddAll(map[], attrs), false, o + |OpenText(tag, attrs)|))
  {
    OpenPieces(s, o, tag, attrs);
    hide NameEnd, Lower, ReadAttributes, AttrsText, At, AddAll, OpenText, AttrsOk, NameOk;
    NameIsRead(s, o + 1, tag);
    AttributesAreRead(s, tag, map[], attrs, o + 1 + |tag|);
  }

  lemma OpenPieces(s: string, o: nat, tag: string, attrs: seq<(string, string)>)
    requires NameOk(tag) && At(s, o, OpenText(tag, attrs))
    ensures var rest := AttrsText(attrs) + ">";
      var end := o + 1 + |tag|;
      && At(s, o, "<") && At(s, o + 1, tag) && At(s, end, rest) && end < |s| && !IsNameChar(s[end])
      && |OpenText(tag, attrs)| == 1 + |tag| + |AttrsText(attrs)| + 1
      && tag != ""
  {
    var rest := AttrsText(attrs) + ">";
    AtParts(s, o, "<" + tag, rest);
    AtParts(s, o, "<", tag);
    AtChar(s, o + 1 + |tag|, rest, 0);
    assert rest[0] == if attrs == [] then '>' else ' ';
  }

  // ---- Steps of the parser ----------------------------------------------------------------

  ghost predicate Room(ps: ParserState, limits: Limits, nodes: nat, height: nat) {
    && TopOk(ps) && !ps.nodeLimitReported
    && |ps.arena| + nodes <= limits.maxNodes && |ps.stack| + height <= limits.maxDepth
  }

  ghost predicate LastIsText(ps: ParserState) {
    var siblings := Siblings(ps);
    siblings != [] && IsText(ps.arena, siblings[|siblings| - 1])
  }

  /** The end of the input, or more markup. */
  predicate Stops(s: string, o: nat) { o == |s| || (o < |s| && s[o] == '<') }

  lemma TextIsParsed(ps: ParserState, limits: Limits, s: string, o: nat, text: string)
    requires DocOk(DocText(text)) && At(s, o, text) && Stops(s, o + |text|)
    requires Room(ps, limits, 1, 0) && !LastIsText(ps)
    ensures ParseFrom(ps, limits, s, o) == ParseFrom(Append(ps, TextNode(text)), limits, s, o + |text|)
  {
    hide Markup, Sanitized, IsText, Append;
    var end := o + |text|;
    forall i | o <= i < end ensures s[i] != '<' { AtChar(s, o, text, i - o); }
    FoundAt(s, '<', o, end);
    assert PushText(ps, limits, s[o..end]) == Append(ps, TextNode(text)) by { TextIsPushed(ps, limits, text); }
    AppendKeepsFlag(ps, TextNode(text));
    if end < |s| {
      FoundAt(s, '<', end, end);
    } else {
      assert s[o..] == s[o..end];
    }
    hide PushText, Find;
  }

  /** At a '<' the parser does what the markup there says. */
  lemma MarkupIsParsed(ps: ParserState, limits: Limits, s: string, o: nat)
    requires o < |s| && s[o] == '<' && !ps.nodeLimitReported
    ensures var (after, next) := Markup(ps, limits, s, o);
      ParseFrom(ps, limits, s, o) == if next.None? then after else ParseFrom(after, limits, s, next.value)
  {
    hide Markup;
    FoundAt(s, '<', o, o);
    hide Find;
  }

  lemma BangOfComment(s: string, o: nat)
    ensures MatchesAt(s, "<!--", o) ==> o + 1 < |s| && s[o + 1] == '!'
  {
    if MatchesAt(s, "<!--", o) { assert s[o..o + 4][1] == s[o + 1]; }
  }

  lemma AppendKeepsFlag(ps: ParserState, node: ArenaNode)
    ensures Append(ps, node).nodeLimitReported == ps.nodeLimitReported && Append(ps, node).stack == ps.stack
  {
  }

  lemma TextIsPushed(ps: ParserState, limits: Limits, text: string)
    requires text != "" && Sanitized(text, false) == text && Room(ps, limits, 1, 0) && !LastIsText(ps)
    ensures PushText(ps, limits, text) == Append(ps, TextNode(text))
  {
    hide Sanitized, Append;
  }

  /** An open tag pushes its element, and goes on inside it unless it is void or code. */
  lemma OpenIsParsed(ps: ParserState, limits: Limits, s: string, o: nat, tag: string, attrs: seq<(string, string)>)
    requires NameOk(tag) && IsAlpha(tag[0]) && AttrsOk(attrs) && At(s, o, OpenText(tag, attrs))
    requires Room(ps, limits, 1, 1) && !IsRaw(tag)
    ensures ParseFrom(ps, limits, s, o) ==
      ParseFrom(if IsVoid(tag) then Opened(ps, tag, attrs).(stack := ps.stack) else Opened(ps, tag, attrs),
                limits, s, o + |OpenText(tag, attrs)|)
  {
    hide ParseFrom, Markup, ReadOpenTag, Append, OpenText, At, NameOk, AttrsOk, TopOk;
    AppendKeepsFlag(ps, Element(tag, AddAll(map[], attrs), []));
    OpenTagIsRead(s, o, tag, attrs);
    OpenIsMarkup(ps, limits, s, o, tag, attrs);
    MarkupIsParsed(ps, limits, s, o);
  }

  lemma OpenIsMarkup(ps: ParserState, limits: Limits, s: string, o: nat, tag: string, attrs: seq<(string, string)>)
    requires NameOk(tag) && IsAlpha(tag[0]) && At(s, o, OpenText(tag, attrs)) && o < |s|
    requires ReadOpenTag(s, o) == Some(OpenTag(tag, AddAll(map[], attrs), false, o + |OpenText(tag, attrs)|))
    ensures s[o] == '<'
    ensures Markup(ps, limits, s, o)
         == OpenElement(ps, limits, s, OpenTag(tag, AddAll(map[], attrs), false, o + |OpenText(tag, attrs)|))
  {
    AtParts(s, o, "<" + tag, AttrsText(attrs) + ">");
    AtParts(s, o, "<", tag);
    AtChar(s, o, "<", 0);
    AtChar(s, o + 1, tag, 0);
    hide ReadOpenTag, OpenElement, FindString, CloseTag;
    BangOfComment(s, o);
  }

  lemma CloseIsMarkup(ps: ParserState, limits: Limits, s: string, o: nat, tag: string)
    requires NameOk(tag) && At(s, o, CloseText(tag))
    ensures o < |s| && s[o] == '<'
      && Markup(ps, limits, s, o) == (CloseTag(ps, limits, tag), Some(o + |CloseText(tag)|))
  {
    AtParts(s, o, "</" + tag, ">");
    AtParts(s, o, "</", tag);
    AtChar(s, o, "</", 0);
    AtChar(s, o, "</", 1);
    AtChar(s, o + 2 + |tag|, ">", 0);
    hide CloseTag, FindString, Lower, NameEnd, At, NameOk;
    NameIsRead(s, o + 2, tag);
    FoundAt(s, '>', o + 2 + |tag|, o + 2 + |tag|);
    BangOfComment(s, o);
  }

  /** A closing tag for the innermost open element takes just that off the stack. */
  lemma CloseIsParsed(ps: ParserState, limits: Limits, s: string, o: nat, tag: string)
    requires NameOk(tag) && At(s, o, CloseText(tag)) && !ps.nodeLimitReported
    requires ps.stack != [] && IsElement(ps.arena, Top(ps)) && ps.arena[Top(ps)].tag == tag
    ensures ParseFrom(ps, limits, s, o)
         == ParseFrom(ps.(stack := ps.stack[..|ps.stack| - 1]), limits, s, o + |CloseText(tag)|)
  {
    hide *;
    InnermostCloses(ps, limits, tag);
    CloseIsMarkup(ps, limits, s, o, tag);
    MarkupIsParsed(ps, limits, s, o);
  }

  lemma InnermostCloses(ps: ParserState, limits: Limits, tag: string)
    requires ps.stack != [] && IsElement(ps.arena, Top(ps)) && ps.arena[Top(ps)].tag == tag
    ensures CloseTag(ps, limits, tag) == ps.(stack := ps.stack[..|ps.stack| - 1])
  {
    assert LastOpen(ps.arena, ps.stack, tag) == Some(|ps.stack| - 1);
  }

  // ---- Documents --------------------------------------------------------------------------

  lemma {:induction false} OneIsParsed(ps: ParserState, limits: Limits, s: string, o: nat, doc: Doc)
    requires DocOk(doc) && At(s, o, WriteOne(doc)) && Room(ps, limits, NodesOne(doc), HeightOne(doc))
    requires doc.DocText? ==> Stops(s, o + |WriteOne(doc)|) && !LastIsText(ps)
    ensures ParseFrom(ps, limits, s, o) == ParseFrom(BuildOne(ps, doc), limits, s, o + |WriteOne(doc)|)
    decreases doc, 0
  {
    hide ParseFrom, OpenText, CloseText, At, LastIsText, Append;
    match doc
    case DocText(text) => TextIsParsed(ps, limits, s, o, text);
    case DocElement(tag, attrs, children) =>
      var open := OpenText(tag, attrs);
      AtParts(s, o, open, if IsVoid(tag) then "" else Write(children) + CloseText(tag));
      if IsVoid(tag) {
        OpenIsParsed(ps, limits, s, o, tag, attrs);
      } else if IsRaw(tag) {
        RawIsParsed(ps, limits, s, o, tag, attrs, children);
      } else {
        InnerIsParsed(ps, limits, s, o, tag, attrs, children);
      }
  }

  lemma {:induction false} InnerIsParsed(ps: ParserState, limits: Limits, s: string, o: nat, tag: string,
                                         attrs: seq<(string, string)>, children: seq<Doc>)
    requires NameOk(tag) && IsAlpha(tag[0]) && AttrsOk(attrs) && DocsOk(children) && !IsVoid(tag) && !IsRaw(tag)
    requires At(s, o, OpenText(tag, attrs) + (Write(children) + CloseText(tag)))
    requires Room(ps, limits, 1 + Nodes(children), 1 + Height(children))
    ensures ParseFrom(ps, limits, s, o)
         == ParseFrom(Build(Opened(ps, tag, attrs), children).(stack := ps.stack), limits, s,
                      o + |OpenText(tag, attrs)| + |Write(children)| + |CloseText(tag)|)
    decreases children, 2
  {
    hide Build, Write, OpenText, ParseFrom, At, DocsOk, AttrsOk, NameOk, Nodes, Height;
    var inside, open, inner := Opened(ps, tag, attrs), OpenText(tag, attrs), Write(children);
    AtParts(s, o, open, inner + CloseText(tag));
    AtParts(s, o + |open|, inner, CloseText(tag));
    AtChar(s, o + |open| + |inner|, CloseText(tag), 0);
    OpenIsParsed(ps, limits, s, o, tag, attrs);
    AppendGains(ps, Element(tag, AddAll(map[], attrs), []));
    assert Top(inside) == |ps.arena| && Siblings(inside) == [];
    DocsAreParsed(inside, limits, s, o + |open|, children);
    var ids := BuildGains(inside, children);
    hide CloseText, Opened;
    var filled := Build(inside, children);
    assert filled.stack[..|filled.stack| - 1] == ps.stack;
    CloseIsParsed(filled, limits, s, o + |open| + |inner|, tag);
  }

  lemma {:induction false} DocsAreParsed(ps: ParserState, limits: Limits, s: string, o: nat, docs: seq<Doc>)
    requires DocsOk(docs) && At(s, o, Write(docs)) && Room(ps, limits, Nodes(docs), Height(docs))
    requires Stops(s, o + |Write(docs)|) && (docs != [] && docs[0].DocText? ==> !LastIsText(ps))
    ensures ParseFrom(ps, limits, s, o) == ParseFrom(Build(ps, docs), limits, s, o + |Write(docs)|)
    decreases docs, 1
  {
    hide ParseFrom, At, BuildOne, DocOk, NodesOne, HeightOne, LastIsText;
    if docs != [] {
      var first, rest := docs[0], docs[1..];
      AtParts(s, o, WriteOne(first), Write(rest));
      var next := o + |WriteOne(first)|;
      if first.DocText? && rest != [] {
        assert Write(rest)[0] == '<';
        AtChar(s, next, Write(rest), 0);
      }
      OneIsParsed(ps, limits, s, o, first);
      BuildOneGains(ps, first);
      var built := BuildOne(ps, first);
      NotTextAfter(ps, built, first);
      hide WriteOne;
      DocsAreParsed(built, limits, s, next, rest);
    }
  }

  lemma NotTextAfter(ps: ParserState, t: ParserState, doc: Doc)
    requires TopOk(ps) && Gained(ps, t, [|ps.arena|]) && Rep(t.arena, |ps.arena|, |ps.arena|, doc)
    ensures TopOk(t) && (doc.DocElement? ==> !LastIsText(t))
  {
  }

  // ---- Code elements ----------------------------------------------------------------------

  lemma {:induction false} FirstMatch(s: string, needle: string, from: nat, end: nat)
    requires from <= end <= |s| && MatchesAt(s, needle, end) && forall i :: from <= i < end ==> !MatchesAt(s, needle, i)
    ensures FindString(s, needle, from) == Some(end)
    decreases end - from
  {
    if from < end { FirstMatch(s, needle, from + 1, end); }
  }

  lemma LowerPart(s: string, o: nat, n: nat)
    requires o + n <= |s|
    ensures Lower(s)[o..o + n] == Lower(s[o..o + n])
  {
  }

  /** The first closing tag in the text is the one that was written. */
  lemma CloserIsFound(s: string, o: nat, tag: string, text: string)
    requires NameOk(tag) && RawOk(tag, text) && At(s, o, text + CloseText(tag))
    ensures FindString(Lower(s), "</" + tag, o) == Some(o + |text|)
  {
    var all, needle, end := text + CloseText(tag), "</" + tag, o + |text|;
    NoEarlierCloser(s, o, tag, text);
    AtParts(s, o, text, CloseText(tag));
    AtParts(s, end, needle, ">");
    CloserMatches(s, end, tag);
    hide FindString, MatchesAt, Lower, At, CloseText;
    FirstMatch(Lower(s), needle, o, end);
  }

  lemma NoEarlierCloser(s: string, o: nat, tag: string, text: string)
    requires RawOk(tag, text) && At(s, o, text + CloseText(tag))
    ensures forall i :: o <= i < o + |text| ==> !MatchesAt(Lower(s), "</" + tag, i)
  {
    hide Sanitized, Lower, MatchesAt, At;
    var all := text + CloseText(tag);
    forall i | o <= i < o + |text| ensures !MatchesAt(Lower(s), "</" + tag, i) {
      MatchMoves(s, o, all, "</" + tag, i);
    }
  }

  lemma CloserMatches(s: string, at: nat, tag: string)
    requires NameOk(tag) && At(s, at, "</" + tag)
    ensures MatchesAt(Lower(s), "</" + tag, at)
  {
    LowerNeedle(s, at, tag);
  }

  lemma MatchMoves(s: string, o: nat, all: string, needle: string, i: nat)
    requires At(s, o, all) && o <= i <= o + |all|
    ensures i + |needle| <= o + |all| ==> (MatchesAt(Lower(s), needle, i) <==> MatchesAt(Lower(all), needle, i - o))
  {
    LowerPart(s, o, |all|);
    assert Lower(s)[o..o + |all|] == Lower(all);
    if i + |needle| <= o + |all| {
      assert Lower(all)[i - o..i - o + |needle|] == Lower(s)[i..i + |needle|];
    }
  }

  lemma LowerNeedle(all: string, at: nat, tag: string)
    requires NameOk(tag) && at + 2 + |tag| <= |all| && all[at..at + 2 + |tag|] == "</" + tag
    ensures Lower(all)[at..at + 2 + |tag|] == "</" + tag
  {
    LowerPart(all, at, 2 + |tag|);
    var needle := "</" + tag;
    forall i | 0 <= i < |needle| ensures Lower(needle)[i] == needle[i] {
      if i >= 2 { assert needle[i] == tag[i - 2]; }
    }
    assert Lower(needle) == needle;
  }

  function RawText(children: seq<Doc>): string {
    if children == [] || !children[0].DocText? then "" else children[0].text
  }

  lemma RawIsParsed(ps: ParserState, limits: Limits, s: string, o: nat, tag: string, attrs: seq<(string, string)>,
                    children: seq<Doc>)
    requires DocOk(DocElement(tag, attrs, children)) && IsRaw(tag) && !IsVoid(tag)
    requires At(s, o, OpenText(tag, attrs) + (Write(children) + CloseText(tag)))
    requires Room(ps, limits, 1 + Nodes(children), 1 + Height(children))
    ensures ParseFrom(ps, limits, s, o)
         == ParseFrom(Build(Opened(ps, tag, attrs), children).(stack := ps.stack), limits, s,
                      o + |OpenText(tag, attrs)| + |Write(children)| + |CloseText(tag)|)
  {
    hide ParseFrom, ReadOpenTag, OpenElement, Build, FindString, OpenText, CloseText, Markup, At, Sanitized, Lower,
      MatchesAt, NameOk, AttrsOk, Nodes, Height, AfterClose;
    var open, text := OpenText(tag, attrs), RawText(children);
    RawIsWritten(children);
    AtParts(s, o, open, text + CloseText(tag));
    AtParts(s, o + |open|, text, CloseText(tag));
    OpenTagIsRead(s, o, tag, attrs);
    OpenIsMarkup(ps, limits, s, o, tag, attrs);
    MarkupIsParsed(ps, limits, s, o);
    CloserIsFound(s, o + |open|, tag, text);
    CloserEnds(s, o + |open| + |text|, tag);
    RawIsBuilt(ps, limits, s, o + |open|, tag, attrs, children);
  }

  lemma RawIsWritten(children: seq<Doc>)
    requires children == [] || (|children| == 1 && children[0].DocText?)
    ensures Write(children) == RawText(children)
  {
    if children != [] { assert children[1..] == []; }
  }

  lemma CloserEnds(s: string, o: nat, tag: string)
    requires NameOk(tag) && At(s, o, CloseText(tag))
    ensures AfterClose(s, o) == o + |CloseText(tag)|
  {
    var text := CloseText(tag);
    forall i | o <= i < o + |text| - 1 ensures s[i] != '>' {
      AtChar(s, o, text, i - o);
      if i >= o + 2 { assert text[i - o] == tag[i - o - 2]; }
    }
    AtChar(s, o, text, |text| - 1);
    FoundAt(s, '>', o, o + |text| - 1);
  }

  lemma RawIsBuilt(ps: ParserState, limits: Limits, s: string, o: nat, tag: string, attrs: seq<(string, string)>,
                   children: seq<Doc>)
    requires DocOk(DocElement(tag, attrs, children)) && IsRaw(tag) && !IsVoid(tag)
    requires Room(ps, limits, 1 + Nodes(children), 1)
    requires At(s, o, RawText(children)) && o + |RawText(children)| + |CloseText(tag)| <= |s|
    requires FindString(Lower(s), "</" + tag, o) == Some(o + |RawText(children)|)
    requires AfterClose(s, o + |RawText(children)|) == o + |RawText(children)| + |CloseText(tag)|
    ensures var built := Build(Opened(ps, tag, attrs), children).(stack := ps.stack);
      && !built.nodeLimitReported
      && OpenElement(ps, limits, s, OpenTag(tag, AddAll(map[], attrs), false, o))
           == (built, Some(o + |RawText(children)| + |CloseText(tag)|))
  {
    hide FindString, Lower, AfterClose, Sanitized;
    var node := Element(tag, AddAll(map[], attrs), []);
    AppendGains(ps, node);
    var pushed, text := Append(ps, node), RawText(children);
    if children != [] {
      assert children[1..] == [];
      assert Build(Opened(ps, tag, attrs), children) == Append(Opened(ps, tag, attrs), TextNode(text));
      assert Nodes(children) == 1;
    }
  }

  // ---- The round trip ---------------------------------------------------------------------

  lemma {:induction false} RepIsTree(arena: seq<ArenaNode>, lo: nat, i: nat, doc: Doc)
    requires Downward(arena) && Rep(arena, lo, i, doc)
    ensures Materialize(arena, i) == TreeOf(doc)
    decreases doc, 0
  {
    if doc.DocElement? {
      assert ChildrenOf(arena[i]) == arena[i].children;
      RepsAreTrees(arena, lo, arena[i].children, doc.children, i);
    }
  }

  lemma {:induction false} RepsAreTrees(arena: seq<ArenaNode>, lo: nat, ids: seq<nat>, docs: seq<Doc>, above: int)
    requires Downward(arena) && RepAll(arena, lo, ids, docs) && above >= -1 && Between(ids, above, |arena|)
    ensures MaterializeAll(arena, ids, above) == Trees(docs)
    decreases docs, 1
  {
    if docs != [] {
      RepIsTree(arena, lo, ids[0], docs[0]);
      assert forall i :: 0 <= i < |ids[1..]| ==> ids[1..][i] == ids[i + 1];
      RepsAreTrees(arena, lo, ids[1..], docs[1..], above);
      MaterializeFirst(arena, ids, above);
    }
  }

  lemma {:induction false} MaterializeFirst(arena: seq<ArenaNode>, ids: seq<nat>, above: int)
    requires Downward(arena) && above >= -1 && ids != [] && Between(ids, above, |arena|)
      && Between(ids[1..], above, |arena|)
    ensures MaterializeAll(arena, ids, above) == [Materialize(arena, ids[0])] + MaterializeAll(arena, ids[1..], above)
    decreases |ids|
  {
    hide Materialize, Downward;
    if |ids| == 1 {
      assert ids[..0] == [] && ids[1..] == [];
    } else {
      var front := ids[..|ids| - 1];
      assert front[1..] == ids[1..][..|ids| - 2];
      MaterializeFirst(arena, front, above);
    }
  }

  /**
   * Parsing what a forest is written as gives the forest back, and no error: for all nested elements, void and code
   * ones among them, with any attributes and clean texts between them, within the limits.
   */
  lemma RoundTrip(docs: seq<Doc>, limits: Limits)
    requires DocsOk(docs) && |Write(docs)| <= limits.maxInput
    requires Nodes(docs) <= limits.maxNodes && Height(docs) <= limits.maxDepth
    ensures var ps := Parsed(Write(docs), limits);
      && ps.errors == [] && ps.stack == [] && Downward(ps.arena) && Between(ps.roots, -1, |ps.arena|)
      && MaterializeAll(ps.arena, ps.roots, -1) == Trees(docs)
  {
    hide Build, Write, WellFormed, DocsOk, ParseFrom, Nodes, Height, MaterializeAll, Trees, Gained;
    var s, t := Write(docs), Build(START, docs);
    var ids := ParsedIsBuilt(docs, limits);
    var parents := ParsedIsWellFormed(s, limits);
    MaterializedIsComplete(t, limits, parents);
    RepsAreTrees(t.arena, 0, t.roots, docs, -1);
  }

  lemma ParsedIsBuilt(docs: seq<Doc>, limits: Limits) returns (ids: seq<nat>)
    requires DocsOk(docs) && |Write(docs)| <= limits.maxInput
    requires Nodes(docs) <= limits.maxNodes && Height(docs) <= limits.maxDepth
    ensures var t := Build(START, docs);
      && Parsed(Write(docs), limits) == t && t.errors == [] && t.stack == [] && t.roots == ids
      && RepAll(t.arena, 0, ids, docs)
  {
    var s := Write(docs);
    assert s[..|s|] == s;
    ids := BuildGains(START, docs);
    assert [] + ids == ids;
    hide Build, Write, DocsOk, Nodes, Height;
    DocsAreParsed(START, limits, s, 0, docs);
    hide RepAll;
  }

  // ---- Every forest is a document's -------------------------------------------------------

  lemma {:induction false} AddAllPush(acc: map<string, string>, attrs: seq<(string, string)>, last: (string, string))
    ensures AddAll(acc, attrs + [last]) == AddAll(acc, attrs)[last.0 := last.1]
    decreases |attrs|
  {
    var all := attrs + [last];
    if attrs == [] {
      assert all[1..] == [];
    } else {
      assert all[1..] == attrs[1..] + [last];
      AddAllPush(acc[attrs[0].0 := attrs[0].1], attrs[1..], last);
    }
  }

  lemma {:induction false} ListOf(m: map<string, string>) returns (attrs: seq<(string, string)>)
    ensures AddAll(map[], attrs) == m
    decreases |m|
  {
    if m == map[] {
      attrs := [];
    } else {
      var key :| key in m;
      var front := ListOf(m - {key});
      AddAllPush(map[], front, (key, m[key]));
      attrs := front + [(key, m[key])];
    }
  }

  /**
   * Any forest can be laid out as a document, so the round trip is about all forests whose names and texts are clean.
   */
  lemma {:induction false} EveryForest(nodes: seq<StmlNode>) returns (docs: seq<Doc>)
    ensures Trees(docs) == nodes
    decreases nodes
  {
    if nodes == [] {
      docs := [];
    } else {
      var rest := EveryForest(nodes[1..]);
      match nodes[0] {
        case StmlText(text) => docs := [DocText(text)] + rest;
        case StmlElement(tag, attrs, children) =>
          var list := ListOf(attrs);
          var kids := EveryForest(children);
          docs := [DocElement(tag, list, kids)] + rest;
      }
      assert docs[1..] == rest;
    }
  }
}
