/** The tolerant STML parser: an arena of nodes, a stack of open elements, and caps on everything. */
module StmlParse {
  import opened Text
  import opened DiffModel
  import opened Sanitize

  datatype ArenaNode = TextNode(text: string)
                     | Element(tag: string, attrs: map<string, string>, children: seq<nat>)

  datatype ParseError = Truncated | NodeLimit | DepthLimit(tag: string) | Unclosed(tag: string)
                      | UnclosedTags(tags: seq<string>) | StrayClose(name: string)
                      | ImplicitlyClosed(name: string, count: nat)

  datatype Limits = Limits(maxInput: nat, maxNodes: nat, maxDepth: nat, maxErrors: nat)

  const DEFAULT_LIMITS := Limits(64 * 1024, 2000, 32, 20)

  datatype ParserState = ParserState(arena: seq<ArenaNode>, roots: seq<nat>, stack: seq<nat>,
                                     errors: seq<ParseError>, nodeLimitReported: bool)

  const START := ParserState([], [], [], [], false)

  // ---- Characters -------------------------------------------------------------------------

  predicate IsAlpha(c: char) { 'a' <= c <= 'z' || 'A' <= c <= 'Z' }

  predicate IsNameChar(c: char) { IsAlpha(c) || IsDigit(c) || c == '-' || c == '_' }

  predicate IsAsciiSpace(c: char) {
    var n := c as int;
    n == 0x20 || n == 0x9 || n == 0xA || n == 0xC || n == 0xD
  }

  function LowerChar(c: char): char {
    if 'A' <= c <= 'Z' then (c as int + 32) as char else c
  }

  function Lower(s: string): (r: string)
    ensures |r| == |s|
  {
    seq(|s|, i requires 0 <= i < |s| => LowerChar(s[i]))
  }

  function Find(s: string, c: char, from: nat): (p: nat)
    requires from <= |s|
    ensures from <= p <= |s|
    ensures forall i :: from <= i < p ==> s[i] != c
    ensures p < |s| ==> s[p] == c
    decreases |s| - from
  {
    if from == |s| || s[from] == c then from else Find(s, c, from + 1)
  }

  predicate MatchesAt(s: string, needle: string, at: nat) {
    at + |needle| <= |s| && s[at..at + |needle|] == needle
  }

  function FindString(s: string, needle: string, from: nat): (p: Option<nat>)
    requires from <= |s|
    ensures p.Some? ==> from <= p.value && MatchesAt(s, needle, p.value)
    decreases |s| - from
  {
    if MatchesAt(s, needle, from) then Some(from)
    else if from == |s| then None
    else FindString(s, needle, from + 1)
  }

  function NameEnd(s: string, from: nat): (p: nat)
    requires from <= |s|
    ensures from <= p <= |s|
    ensures forall i :: from <= i < p ==> IsNameChar(s[i])
    ensures p < |s| ==> !IsNameChar(s[p])
    decreases |s| - from
  {
    if from == |s| || !IsNameChar(s[from]) then from else NameEnd(s, from + 1)
  }

  function SkipSpace(s: string, from: nat): (p: nat)
    requires from <= |s|
    ensures from <= p <= |s|
    ensures forall i :: from <= i < p ==> IsAsciiSpace(s[i])
    ensures p < |s| ==> !IsAsciiSpace(s[p])
    decreases |s| - from
  {
    if from == |s| || !IsAsciiSpace(s[from]) then from else SkipSpace(s, from + 1)
  }

  /** Just past the next '>' at or after `from`, or the end of the text. */
  function AfterClose(s: string, from: nat): (p: nat)
    requires from <= |s|
    ensures from <= p <= |s|
  {
    if Find(s, '>', from) == |s| then |s| else Find(s, '>', from) + 1
  }

  predicate IsVoid(tag: string) { tag in ["br", "hr", "rule", "divider", "spacer", "space"] }

  predicate IsRaw(tag: string) { tag in ["code", "pre"] }

  // ---- Open tags --------------------------------------------------------------------------

  datatype OpenTag = OpenTag(tag: string, attrs: map<string, string>, selfClosing: bool, next: nat)

  function UnquotedEnd(s: string, from: nat): (p: nat)
    requires from <= |s|
    ensures from <= p <= |s|
    decreases |s| - from
  {
    if from == |s| || IsAsciiSpace(s[from]) || s[from] == '>' || s[from] == '/' then from else UnquotedEnd(s, from + 1)
  }

  /** An attribute value and where it ends. */
  function AttributeValue(s: string, at: nat): (r: (string, nat))
    requires at <= |s|
    ensures at <= r.1 <= |s|
  {
    if at < |s| && (s[at] == '"' || s[at] == '\'') then
      var close := Find(s, s[at], at + 1);
      (s[at + 1..close], if close < |s| then close + 1 else close)
    else
      (s[at..UnquotedEnd(s, at)], UnquotedEnd(s, at))
  }

  /** The value after an attribute name: what follows '=', or nothing. */
  function AfterName(s: string, at: nat): (r: (string, nat))
    requires at <= |s|
    ensures at <= r.1 <= |s|
  {
    var p := SkipSpace(s, at);
    if p < |s| && s[p] == '=' then AttributeValue(s, SkipSpace(s, p + 1)) else ("", p)
  }

  function ReadAttributes(s: string, tag: string, attrs: map<string, string>, at: nat): (r: Option<OpenTag>)
    requires at <= |s|
    ensures r.Some? ==> at < r.value.next <= |s| && r.value.tag == tag
    decreases |s| - at
  {
    var p := SkipSpace(s, at);
    if p == |s| then None
    else if s[p] == '>' then Some(OpenTag(tag, attrs, false, p + 1))
    else if s[p] == '/' && p + 1 < |s| && s[p + 1] == '>' then Some(OpenTag(tag, attrs, true, p + 2))
    else
      var end := NameEnd(s, p);
      if end == p then ReadAttributes(s, tag, attrs, p + 1)
      else
        var (value, next) := AfterName(s, end);
        ReadAttributes(s, tag, attrs[Lower(s[p..end]) := Sanitized(value, false)], next)
  }

  function ReadOpenTag(s: string, open: nat): (r: Option<OpenTag>)
    requires open < |s|
    ensures r.Some? ==> open + 1 < r.value.next <= |s|
  {
    var end := NameEnd(s, open + 1);
    if end == open + 1 then None else ReadAttributes(s, Lower(s[open + 1..end]), map[], end)
  }

  /** One look at an open tag: its end, or the next attribute. */
  method ReadAttribute(s: string, tag: string, attrs: map<string, string>, at: nat)
    returns (done: bool, r: Option<OpenTag>, more: map<string, string>, next: nat)
    requires at <= |s|
    ensures done ==> r == ReadAttributes(s, tag, attrs, at) && next == at
    ensures !done ==> at < next <= |s| && ReadAttributes(s, tag, attrs, at) == ReadAttributes(s, tag, more, next)
  {
    hide Lower, Sanitized;
    done, r, more, next := true, None, attrs, at;
    var p := SkipSpace(s, at);
    if p == |s| {
    } else if s[p] == '>' {
      r := Some(OpenTag(tag, attrs, false, p + 1));
    } else if s[p] == '/' && p + 1 < |s| && s[p + 1] == '>' {
      r := Some(OpenTag(tag, attrs, true, p + 2));
    } else {
      done := false;
      var end := NameEnd(s, p);
      if end == p {
        next := p + 1;
      } else {
        var (value, after) := AfterName(s, end);
        more, next := attrs[Lower(s[p..end]) := Sanitized(value, false)], after;
      }
    }
  }

  method ReadOpenTagLoop(s: string, open: nat) returns (r: Option<OpenTag>)
    requires open < |s|
    ensures r == ReadOpenTag(s, open)
  {
    var cursor: nat := NameEnd(s, open + 1);
    r := None;
    if cursor == open + 1 {
      return;
    }
    var tag, attrs, done := Lower(s[open + 1..cursor]), map[], false;
    ghost var goal := ReadOpenTag(s, open);
    hide ReadOpenTag, ReadAttributes;
    while !done
      invariant cursor <= |s|
      invariant if done then r == goal else ReadAttributes(s, tag, attrs, cursor) == goal
      decreases !done, |s| - cursor
    {
      done, r, attrs, cursor := ReadAttribute(s, tag, attrs, cursor);
    }
  }

  // ---- Tree operations --------------------------------------------------------------------

  function AddError(ps: ParserState, limits: Limits, error: ParseError): ParserState {
    if |ps.errors| < limits.maxErrors then ps.(errors := ps.errors + [error]) else ps
  }

  /** Room for one more node, or the one report that there is none. */
  function Reserve(ps: ParserState, limits: Limits): (ParserState, bool) {
    if |ps.arena| < limits.maxNodes then (ps, true)
    else if ps.nodeLimitReported then (ps, false)
    else (AddError(ps, limits, NodeLimit).(nodeLimitReported := true), false)
  }

  function AddChild(arena: seq<ArenaNode>, parent: nat, child: nat): seq<ArenaNode> {
    if parent < |arena| && arena[parent].Element?
    then arena[parent := arena[parent].(children := arena[parent].children + [child])] else arena
  }

  function Top(ps: ParserState): nat
    requires ps.stack != []
  {
    ps.stack[|ps.stack| - 1]
  }

  /** Appends a node under the innermost open element, or at the top. */
  function Append(ps: ParserState, node: ArenaNode): ParserState {
    var index := |ps.arena|;
    var grown := ps.(arena := ps.arena + [node]);
    if ps.stack == [] then grown.(roots := ps.roots + [index])
    else grown.(arena := AddChild(grown.arena, Top(ps), index))
  }

  function Siblings(ps: ParserState): seq<nat> {
    if ps.stack == [] then ps.roots
    else if Top(ps) < |ps.arena| && ps.arena[Top(ps)].Element? then ps.arena[Top(ps)].children
    else []
  }

  /** Text joins a preceding text sibling; otherwise it becomes a node. */
  function PushText(ps: ParserState, limits: Limits, raw: string): ParserState {
    var text := Sanitized(raw, false);
    var siblings := Siblings(ps);
    if text == [] then ps
    else if siblings != [] && siblings[|siblings| - 1] < |ps.arena| && ps.arena[siblings[|siblings| - 1]].TextNode? then
      var last := siblings[|siblings| - 1];
      ps.(arena := ps.arena[last := TextNode(ps.arena[last].text + text)])
    else
      var (reserved, ok) := Reserve(ps, limits);
      if ok then Append(reserved, TextNode(text)) else reserved
  }

  /** An element without children; the index it got, unless the node limit was reached. */
  function PushElement(ps: ParserState, limits: Limits, tag: string,
                       attrs: map<string, string>): (ParserState, Option<nat>) {
    var (reserved, ok) := Reserve(ps, limits);
    if ok then (Append(reserved, Element(tag, attrs, [])), Some(|ps.arena|)) else (reserved, None)
  }

  /** The raw text of a code element, as its only child. */
  function PushTextChild(ps: ParserState, limits: Limits, parent: nat, raw: string): ParserState {
    var text := Sanitized(raw, false);
    if text == [] then ps else
      var (reserved, ok) := Reserve(ps, limits);
      if ok
      then reserved.(arena := AddChild(reserved.arena + [TextNode(text)], parent, |reserved.arena|))
      else reserved
  }

  /** Position on the stack of the innermost open element with this tag. */
  function LastOpen(arena: seq<ArenaNode>, stack: seq<nat>, name: string): (i: Option<nat>)
    ensures i.Some? ==> i.value < |stack|
  {
    if stack == [] then None else
      var top := stack[|stack| - 1];
      if top < |arena| && arena[top].Element? && arena[top].tag == name then Some(|stack| - 1)
      else LastOpen(arena, stack[..|stack| - 1], name)
  }

  function CloseTag(ps: ParserState, limits: Limits, name: string): ParserState {
    match LastOpen(ps.arena, ps.stack, name)
    case None => AddError(ps, limits, StrayClose(name))
    case Some(i) =>
      var implied := |ps.stack| - (i + 1);
      var noted := if implied > 0 then AddError(ps, limits, ImplicitlyClosed(name, implied)) else ps;
      noted.(stack := ps.stack[..i])
  }

  /** The element at position i of the stack has this tag. */
  predicate IsOpen(ps: ParserState, i: nat, name: string) {
    i < |ps.stack| && ps.stack[i] < |ps.arena| && ps.arena[ps.stack[i]].Element? && ps.arena[ps.stack[i]].tag == name
  }

  lemma {:induction false} LastOpenIs(ps: ParserState, n: nat, name: string)
    requires n <= |ps.stack|
    ensures match LastOpen(ps.arena, ps.stack[..n], name)
      case Some(i) => IsOpen(ps, i, name) && forall j: nat :: i < j < n ==> !IsOpen(ps, j, name)
      case None => forall j: nat :: j < n ==> !IsOpen(ps, j, name)
  {
    if n > 0 {
      assert ps.stack[..n][..n - 1] == ps.stack[..n - 1];
      LastOpenIs(ps, n - 1, name);
    }
  }

  /**
   * A closing tag takes the innermost open element of its name and everything above it off the stack, keeps what is
   * below, and says how many it closed on the way; without such an element it takes nothing and is reported.
   */
  lemma ClosesInnermost(ps: ParserState, limits: Limits, name: string)
    ensures var t := CloseTag(ps, limits, name);
      && t.arena == ps.arena && t.roots == ps.roots && t.nodeLimitReported == ps.nodeLimitReported
      && (forall i: nat :: IsOpen(ps, i, name) && (forall j: nat :: i < j ==> !IsOpen(ps, j, name)) ==>
            && t.stack == ps.stack[..i]
            && t.errors == (if i + 1 == |ps.stack| then ps
                            else AddError(ps, limits, ImplicitlyClosed(name, |ps.stack| - i - 1))).errors)
      && ((forall i: nat :: !IsOpen(ps, i, name)) ==>
            t.stack == ps.stack && t.errors == AddError(ps, limits, StrayClose(name)).errors)
  {
    LastOpenIs(ps, |ps.stack|, name);
    assert ps.stack[..|ps.stack|] == ps.stack;
    hide LastOpen;
  }

  /** A raw element takes everything up to its own closing tag as text. */
  function RawElement(ps: ParserState, limits: Limits, s: string, tag: string, index: nat,
                      at: nat): (r: (ParserState, nat))
    requires at <= |s|
    ensures at <= r.1 <= |s|
  {
    match FindString(Lower(s), "</" + tag, at)
    case Some(end) => (PushTextChild(ps, limits, index, s[at..end]), AfterClose(s, end))
    case None => (AddError(PushTextChild(ps, limits, index, s[at..]), limits, Unclosed(tag)), |s|)
  }

  /** What an open tag does, and where parsing goes on; None when the node limit ends it. */
  function OpenElement(ps: ParserState, limits: Limits, s: string, tag: OpenTag): (r: (ParserState, Option<nat>))
    requires tag.next <= |s|
    ensures r.1.Some? ==> tag.next <= r.1.value <= |s|
  {
    if |ps.stack| >= limits.maxDepth then (AddError(ps, limits, DepthLimit(tag.tag)), Some(tag.next))
    else
      var (pushed, index) := PushElement(ps, limits, tag.tag, tag.attrs);
      if index.None? then (pushed, None)
      else if tag.selfClosing || IsVoid(tag.tag) then (pushed, Some(tag.next))
      else if IsRaw(tag.tag) then
        var (closed, next) := RawElement(pushed, limits, s, tag.tag, index.value, tag.next);
        (closed, Some(next))
      else (pushed.(stack := pushed.stack + [index.value]), Some(tag.next))
  }

  /** Markup starting at a '<': a comment, a closing tag, an open tag, or just text. */
  function Markup(ps: ParserState, limits: Limits, s: string, open: nat): (r: (ParserState, Option<nat>))
    requires open < |s| && s[open] == '<'
    ensures r.1.Some? ==> open < r.1.value <= |s|
  {
    if MatchesAt(s, "<!--", open) then
      var end := FindString(s, "-->", open + 4);
      (ps, Some(if end.Some? then end.value + 3 else |s|))
    else if open + 1 < |s| && s[open + 1] == '/' then
      var end := NameEnd(s, open + 2);
      (CloseTag(ps, limits, Lower(s[open + 2..end])), Some(AfterClose(s, end)))
    else if open + 1 == |s| then (PushText(ps, limits, "<"), None)
    else if !IsAlpha(s[open + 1]) || ReadOpenTag(s, open).None? then (PushText(ps, limits, "<"), Some(open + 1))
    else OpenElement(ps, limits, s, ReadOpenTag(s, open).value)
  }

  function ParseFrom(ps: ParserState, limits: Limits, s: string, offset: nat): ParserState
    requires offset <= |s|
    decreases |s| - offset
  {
    if offset == |s| || ps.nodeLimitReported then ps
    else
      var open := Find(s, '<', offset);
      if open == |s| then PushText(ps, limits, s[offset..])
      else
        var before := if open > offset then PushText(ps, limits, s[offset..open]) else ps;
        if before.nodeLimitReported then before
        else
          var (after, next) := Markup(before, limits, s, open);
          if next.None? then after else ParseFrom(after, limits, s, next.value)
  }

  function StackTags(arena: seq<ArenaNode>, stack: seq<nat>): seq<string> {
    if stack == [] then [] else
      var top := stack[|stack| - 1];
      StackTags(arena, stack[..|stack| - 1])
      + (if top < |arena| && arena[top].Element? then [arena[top].tag] else [])
  }

  function Finish(ps: ParserState, limits: Limits): ParserState {
    if ps.stack == [] then ps else AddError(ps, limits, UnclosedTags(StackTags(ps.arena, ps.stack)))
  }

  function Parsed(input: string, limits: Limits): ParserState {
    var s := input[..Min(|input|, limits.maxInput)];
    var start := if |s| < |input| then AddError(START, limits, Truncated) else START;
    Finish(ParseFrom(start, limits, s, 0), limits)
  }

  // ---- The parser object ------------------------------------------------------------------

  class Parser {
    const source: string
    const limits: Limits
    var arena: seq<ArenaNode>
    var roots: seq<nat>
    var stack: seq<nat>
    var errors: seq<ParseError>
    var nodeLimitReported: bool

    ghost function View(): ParserState
      reads this
    {
      ParserState(arena, roots, stack, errors, nodeLimitReported)
    }

    constructor (source: string, limits: Limits)
      ensures View() == START && this.source == source && this.limits == limits
    {
      this.source, this.limits := source, limits;
      arena, roots, stack, errors, nodeLimitReported := [], [], [], [], false;
    }

    method Error(error: ParseError)
      modifies this`errors
      ensures View() == AddError(old(View()), limits, error)
    {
      if |errors| < limits.maxErrors {
        errors := errors + [error];
      }
    }

    method ReserveNode() returns (ok: bool)
      modifies this
      ensures (View(), ok) == Reserve(old(View()), limits)
    {
      if |arena| < limits.maxNodes {
        return true;
      }
      if !nodeLimitReported {
        Error(NodeLimit);
        nodeLimitReported := true;
      }
      ok := false;
    }

    method Attach(node: ArenaNode)
      modifies this
      ensures View() == Append(old(View()), node)
    {
      var index := |arena|;
      arena := arena + [node];
      if stack != [] {
        arena := AddChild(arena, stack[|stack| - 1], index);
      } else {
        roots := roots + [index];
      }
    }

    method AddText(raw: string)
      modifies this
      ensures View() == PushText(old(View()), limits, raw)
    {
      var text := SanitizeTerminalText(raw, false);
      if text == [] {
        return;
      }
      var siblings :=
        if stack == [] then roots
        else if stack[|stack| - 1] < |arena| && arena[stack[|stack| - 1]].Element?
          then arena[stack[|stack| - 1]].children
        else [];
      if siblings != [] && siblings[|siblings| - 1] < |arena| && arena[siblings[|siblings| - 1]].TextNode? {
        var last := siblings[|siblings| - 1];
        arena := arena[last := TextNode(arena[last].text + text)];
        return;
      }
      var ok := ReserveNode();
      if ok {
        Attach(TextNode(text));
      }
    }

    method AddElement(tag: string, attrs: map<string, string>) returns (index: Option<nat>)
      modifies this
      ensures (View(), index) == PushElement(old(View()), limits, tag, attrs)
    {
      var ok := ReserveNode();
      if !ok {
        return None;
      }
      index := Some(|arena|);
      Attach(Element(tag, attrs, []));
    }

    method AddTextChild(parent: nat, raw: string)
      modifies this
      ensures View() == PushTextChild(old(View()), limits, parent, raw)
    {
      var text := SanitizeTerminalText(raw, false);
      if text == [] {
        return;
      }
      var ok := ReserveNode();
      if ok {
        var index := |arena|;
        arena := AddChild(arena + [TextNode(text)], parent, index);
      }
    }

    method Close(open: nat) returns (next: nat)
      requires open + 2 <= |source|
      modifies this
      ensures var end := NameEnd(source, open + 2);
        next == AfterClose(source, end) && View() == CloseTag(old(View()), limits, Lower(source[open + 2..end]))
      ensures var name := Lower(source[open + 2..NameEnd(source, open + 2)]);
        && (forall i: nat ::
              (old(IsOpen(View(), i, name)) && forall j: nat :: i < j ==> !old(IsOpen(View(), j, name)))
              ==> stack == old(stack)[..i])
        && ((forall i: nat :: !old(IsOpen(View(), i, name))) ==> stack == old(stack))
    {
      ClosesInnermost(View(), limits, Lower(source[open + 2..NameEnd(source, open + 2)]));
      hide IsOpen, Lower, NameEnd;
      var end := NameEnd(source, open + 2);
      var name := Lower(source[open + 2..end]);
      next := AfterClose(source, end);
      var matching := LastOpen(arena, stack, name);
      if matching.None? {
        Error(StrayClose(name));
      } else {
        var implied := |stack| - (matching.value + 1);
        if implied > 0 {
          Error(ImplicitlyClosed(name, implied));
        }
        stack := stack[..matching.value];
      }
    }

    method Open(tag: OpenTag) returns (next: Option<nat>)
      requires tag.next <= |source|
      modifies this
      ensures (View(), next) == OpenElement(old(View()), limits, source, tag)
    {
      if |stack| >= limits.maxDepth {
        Error(DepthLimit(tag.tag));
        return Some(tag.next);
      }
      var index := AddElement(tag.tag, tag.attrs);
      if index.None? {
        return None;
      }
      if tag.selfClosing || IsVoid(tag.tag) {
        return Some(tag.next);
      }
      if IsRaw(tag.tag) {
        var end := FindString(Lower(source), "</" + tag.tag, tag.next);
        if end.Some? {
          AddTextChild(index.value, source[tag.next..end.value]);
          return Some(AfterClose(source, end.value));
        }
        AddTextChild(index.value, source[tag.next..]);
        Error(Unclosed(tag.tag));
        return Some(|source|);
      }
      stack := stack + [index.value];
      next := Some(tag.next);
    }

    method Parse()
      modifies this
      ensures View() == Finish(ParseFrom(old(View()), limits, source, 0), limits)
    {
      var offset := 0;
      ghost var goal := ParseFrom(View(), limits, source, 0);
      while offset < |source| && !nodeLimitReported
        invariant 0 <= offset <= |source|
        invariant ParseFrom(View(), limits, source, offset) == goal
        decreases |source| - offset
      {
        var open := Find(source, '<', offset);
        if open == |source| {
          AddText(source[offset..]);
          offset := |source|;
          break;
        }
        if open > offset {
          AddText(source[offset..open]);
        }
        if nodeLimitReported {
          break;
        }
        var next := ParseMarkup(open);
        if next.None? {
          break;
        }
        offset := next.value;
      }
      if stack != [] {
        Error(UnclosedTags(StackTags(arena, stack)));
      }
    }

    method ParseMarkup(open: nat) returns (next: Option<nat>)
      requires open < |source| && source[open] == '<'
      modifies this
      ensures (View(), next) == Markup(old(View()), limits, source, open)
    {
      if MatchesAt(source, "<!--", open) {
        var end := FindString(source, "-->", open + 4);
        return Some(if end.Some? then end.value + 3 else |source|);
      }
      if open + 1 < |source| && source[open + 1] == '/' {
        var after := Close(open);
        return Some(after);
      }
      if open + 1 == |source| {
        AddText("<");
        return None;
      }
      if !IsAlpha(source[open + 1]) {
        AddText("<");
        return Some(open + 1);
      }
      var tag := ReadOpenTagLoop(source, open);
      if tag.None? {
        AddText("<");
        return Some(open + 1);
      }
      next := Open(tag.value);
    }
  }

  method ParseStml(input: string, limits: Limits) returns (parser: Parser)
    ensures fresh(parser) && parser.View() == Parsed(input, limits)
  {
    var s := input[..Min(|input|, limits.maxInput)];
    parser := new Parser(s, limits);
    if |s| < |input| {
      parser.Error(Truncated);
    }
    parser.Parse();
  }
}
