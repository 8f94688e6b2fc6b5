/** Whatever the input, the parser leaves a well-formed forest within its limits, and materializes all of it. */
module StmlProofs {
  import opened Text
  import opened DiffModel
  import opened Sanitize
  import opened StmlParse

  // ---- Forests by parent ------------------------------------------------------------------

  /** The nodes whose parent is p, in order; -1 is the top. */
  function Kids(parents: seq<int>, p: int): seq<nat> {
    if parents == [] then [] else
      var n := |parents| - 1;
      Kids(parents[..n], p) + (if parents[n] == p then [n] else [])
  }

  lemma KidsPush(parents: seq<int>, parent: int, p: int)
    ensures Kids(parents + [parent], p) == Kids(parents, p) + (if parent == p then [|parents|] else [])
  {
    assert (parents + [parent])[..|parents|] == parents;
  }

  lemma {:induction false} KidsAre(parents: seq<int>, p: int)
    ensures forall k :: k in Kids(parents, p) <==> 0 <= k < |parents| && parents[k] == p
    ensures forall i, j :: 0 <= i < j < |Kids(parents, p)| ==> Kids(parents, p)[i] < Kids(parents, p)[j]
  {
    if parents != [] {
      var n := |parents| - 1;
      KidsAre(parents[..n], p);
      assert parents == parents[..n] + [parents[n]];
      var front := Kids(parents[..n], p);
      assert forall i :: 0 <= i < |front| ==> front[i] in front;
    }
  }

  lemma {:induction false} KidsNone(parents: seq<int>, p: int)
    requires forall j :: 0 <= j < |parents| ==> parents[j] != p
    ensures Kids(parents, p) == []
  {
    if parents != [] { KidsNone(parents[..|parents| - 1], p); }
  }

  predicate IsElement(arena: seq<ArenaNode>, i: int) { 0 <= i < |arena| && arena[i].Element? }

  predicate IsText(arena: seq<ArenaNode>, i: int) { 0 <= i < |arena| && arena[i].TextNode? }

  /** The child lists are exactly those of a parent function that points to smaller indices. */
  ghost predicate Linked(ps: ParserState, parents: seq<int>) {
    && |parents| == |ps.arena|
    && (forall j :: 0 <= j < |parents| ==> -1 <= parents[j] < j)
    && ps.roots == Kids(parents, -1)
    && (forall i :: 0 <= i < |ps.arena| ==> ChildrenOf(ps.arena[i]) == Kids(parents, i))
  }

  function ChildrenOf(node: ArenaNode): seq<nat> { if node.Element? then node.children else [] }

  function Above(stack: seq<nat>, i: nat): int
    requires i <= |stack|
  {
    if i == 0 then -1 else stack[i - 1]
  }

  predicate LastKid(parents: seq<int>, p: int, k: nat) {
    var kids := Kids(parents, p);
    kids != [] && kids[|kids| - 1] == k
  }

  /** The open elements form a path from a root down, each the last child of the one above. */
  ghost predicate OnPath(ps: ParserState, parents: seq<int>) {
    forall i :: 0 <= i < |ps.stack| ==>
      IsElement(ps.arena, ps.stack[i]) && LastKid(parents, Above(ps.stack, i), ps.stack[i])
  }

  ghost predicate NoTextPair(arena: seq<ArenaNode>, kids: seq<nat>) {
    forall i :: 0 <= i < |kids| - 1 ==> !(IsText(arena, kids[i]) && IsText(arena, kids[i + 1]))
  }

  /** No two adjacent siblings are both text. */
  ghost predicate Merged(ps: ParserState) {
    NoTextPair(ps.arena, ps.roots) && forall i :: 0 <= i < |ps.arena| ==> NoTextPair(ps.arena, ChildrenOf(ps.arena[i]))
  }

  function Depth(parents: seq<int>, j: int): nat
    decreases j
  {
    if j < 0 || j >= |parents| || parents[j] < 0 || parents[j] >= j then 1 else 1 + Depth(parents, parents[j])
  }

  ghost predicate Capped(ps: ParserState, limits: Limits, parents: seq<int>) {
    && |ps.arena| <= limits.maxNodes && |ps.errors| <= limits.maxErrors && |ps.stack| <= limits.maxDepth
    && |parents| == |ps.arena|
    && (forall i :: 0 <= i < |ps.stack| ==> Depth(parents, ps.stack[i]) == i + 1)
    && (forall j :: 0 <= j < |ps.arena| ==>
          Depth(parents, j) <= (if ps.arena[j].Element? then limits.maxDepth else limits.maxDepth + 1))
  }

  ghost predicate WellFormed(ps: ParserState, limits: Limits, parents: seq<int>) {
    Linked(ps, parents) && OnPath(ps, parents) && Merged(ps) && Capped(ps, limits, parents)
  }

  // ---- Growing the forest -----------------------------------------------------------------

  lemma {:induction false} DepthStable(parents: seq<int>, parent: int, j: int)
    requires j < |parents|
    ensures Depth(parents + [parent], j) == Depth(parents, j)
    decreases j
  {
    if 0 <= j && 0 <= parents[j] < j { DepthStable(parents, parent, parents[j]); }
  }

  lemma ErrorKeeps(ps: ParserState, limits: Limits, error: ParseError, parents: seq<int>)
    requires WellFormed(ps, limits, parents)
    ensures WellFormed(AddError(ps, limits, error), limits, parents)
    ensures AddError(ps, limits, error) == ps.(errors := AddError(ps, limits, error).errors)
  {
    var t := AddError(ps, limits, error);
    assert Linked(t, parents) && OnPath(t, parents) && Merged(t) && Capped(t, limits, parents);
  }

  lemma ReserveKeeps(ps: ParserState, limits: Limits, parents: seq<int>)
    requires WellFormed(ps, limits, parents)
    ensures var (t, ok) := Reserve(ps, limits);
      && WellFormed(t, limits, parents) && t.arena == ps.arena && t.roots == ps.roots && t.stack == ps.stack
      && (ok ==> |t.arena| < limits.maxNodes)
  {
    hide WellFormed;
    var (t, ok) := Reserve(ps, limits);
    if !ok && !ps.nodeLimitReported {
      ErrorKeeps(ps, limits, NodeLimit, parents);
      FlagKeeps(AddError(ps, limits, NodeLimit), limits, parents);
    }
  }

  lemma FlagKeeps(ps: ParserState, limits: Limits, parents: seq<int>)
    requires WellFormed(ps, limits, parents)
    ensures WellFormed(ps.(nodeLimitReported := true), limits, parents)
  {
    var t := ps.(nodeLimitReported := true);
    assert Linked(t, parents) && OnPath(t, parents) && Merged(t) && Capped(t, limits, parents);
  }

  /** A new leaf under `parent`, which is -1 or an element. */
  function Grown(ps: ParserState, parent: int, node: ArenaNode): ParserState
    requires parent == -1 || IsElement(ps.arena, parent)
  {
    var index := |ps.arena|;
    if parent == -1 then ps.(arena := ps.arena + [node], roots := ps.roots + [index])
    else ps.(arena := ps.arena[parent := ps.arena[parent].(children := ps.arena[parent].children + [index])] + [node])
  }

  ghost predicate MayGrow(ps: ParserState, limits: Limits, parents: seq<int>, parent: int, node: ArenaNode) {
    && WellFormed(ps, limits, parents) && |ps.arena| < limits.maxNodes
    && (parent == -1 || IsElement(ps.arena, parent))
    && ChildrenOf(node) == []
    && (node.Element? ==> (if parent == -1 then 0 else Depth(parents, parent)) < limits.maxDepth)
    && (node.TextNode? && Kids(parents, parent) != [] ==>
          !IsText(ps.arena, Kids(parents, parent)[|Kids(parents, parent)| - 1]))
  }

  lemma GrownLinked(ps: ParserState, parents: seq<int>, parent: int, node: ArenaNode)
    requires Linked(ps, parents) && (parent == -1 || IsElement(ps.arena, parent)) && ChildrenOf(node) == []
    ensures Linked(Grown(ps, parent, node), parents + [parent])
  {
    var t, after, n := Grown(ps, parent, node), parents + [parent], |ps.arena|;
    hide Kids;
    KidsPush(parents, parent, -1);
    KidsNone(after, n);
    forall i | 0 <= i < n ensures ChildrenOf(t.arena[i]) == Kids(after, i) {
      KidsPush(parents, parent, i);
    }
  }

  lemma GrownPath(ps: ParserState, parents: seq<int>, parent: int, node: ArenaNode, i: nat)
    requires OnPath(ps, parents) && |parents| == |ps.arena| && i < |ps.stack|
    requires (parent == -1 && ps.stack == []) || IsElement(ps.arena, parent)
    requires Above(ps.stack, i) != parent
    ensures var t := Grown(ps, parent, node);
      IsElement(t.arena, t.stack[i]) && LastKid(parents + [parent], Above(t.stack, i), t.stack[i])
  {
    KidsPush(parents, parent, Above(ps.stack, i));
  }

  function KidsOf(ps: ParserState, p: int): seq<nat>
    requires -1 <= p < |ps.arena|
  {
    if p == -1 then ps.roots else ChildrenOf(ps.arena[p])
  }

  lemma GrownKids(ps: ParserState, parents: seq<int>, parent: int, node: ArenaNode, p: int)
    requires Linked(ps, parents) && -1 <= p < |ps.arena|
    requires (parent == -1 || IsElement(ps.arena, parent)) && ChildrenOf(node) == []
    ensures var t := Grown(ps, parent, node);
      && KidsOf(t, p) == KidsOf(ps, p) + (if parent == p then [|ps.arena|] else [])
      && (forall i :: 0 <= i < |ps.arena| ==> (IsText(t.arena, i) <==> IsText(ps.arena, i)))
      && t.arena[|ps.arena|] == node
      && (forall i :: 0 <= i < |KidsOf(ps, p)| ==> KidsOf(ps, p)[i] < |ps.arena|)
      && KidsOf(ps, p) == Kids(parents, p)
  {
    hide Kids;
    KidsAre(parents, p);
    var kids := KidsOf(ps, p);
    assert kids == Kids(parents, p);
    forall i | 0 <= i < |kids| ensures kids[i] < |ps.arena| {
      assert kids[i] in kids;
    }
  }

  lemma GrownMerged(ps: ParserState, limits: Limits, parents: seq<int>, parent: int, node: ArenaNode)
    requires MayGrow(ps, limits, parents, parent, node)
    ensures Merged(Grown(ps, parent, node))
  {
    hide Kids, Capped, OnPath, Depth;
    var t, n := Grown(ps, parent, node), |ps.arena|;
    forall p: int | -1 <= p < n ensures NoTextPair(t.arena, KidsOf(t, p)) {
      GrownKids(ps, parents, parent, node, p);
      assert NoTextPair(ps.arena, KidsOf(ps, p));
    }
    GrownLinked(ps, parents, parent, node);
    assert t.roots == KidsOf(t, -1);
    forall i | 0 <= i < |t.arena| ensures NoTextPair(t.arena, ChildrenOf(t.arena[i])) {
      if i < n { assert ChildrenOf(t.arena[i]) == KidsOf(t, i); } else { GrownKids(ps, parents, parent, node, -1); }
    }
  }

  lemma GrownCapped(ps: ParserState, limits: Limits, parents: seq<int>, parent: int, node: ArenaNode)
    requires MayGrow(ps, limits, parents, parent, node)
    ensures Capped(Grown(ps, parent, node), limits, parents + [parent])
  {
    var t, after, n := Grown(ps, parent, node), parents + [parent], |ps.arena|;
    forall j | 0 <= j < n ensures Depth(after, j) == Depth(parents, j) {
      DepthStable(parents, parent, j);
    }
    assert Depth(after, n) == if parent == -1 then 1 else 1 + Depth(parents, parent);
    forall i | 0 <= i < |ps.stack| ensures Depth(after, ps.stack[i]) == i + 1 {
      assert IsElement(ps.arena, ps.stack[i]);
    }
  }

  /** Attaching under the innermost open element keeps everything. */
  lemma AppendKeeps(ps: ParserState, limits: Limits, node: ArenaNode, parents: seq<int>)
    requires MayGrow(ps, limits, parents, Above(ps.stack, |ps.stack|), node)
    ensures WellFormed(Append(ps, node), limits, parents + [Above(ps.stack, |ps.stack|)])
  {
    hide Merged, Capped;
    var parent := Above(ps.stack, |ps.stack|);
    var t := Append(ps, node);
    AppendIsGrown(ps, parents, node);
    GrownLinked(ps, parents, parent, node);
    GrownMerged(ps, limits, parents, parent, node);
    GrownCapped(ps, limits, parents, parent, node);
    StackDistinct(ps, limits, parents);
    forall i | 0 <= i < |t.stack|
      ensures IsElement(t.arena, t.stack[i]) && LastKid(parents + [parent], Above(t.stack, i), t.stack[i])
    {
      GrownPath(ps, parents, parent, node, i);
    }
  }

  lemma AppendIsGrown(ps: ParserState, parents: seq<int>, node: ArenaNode)
    requires OnPath(ps, parents)
    ensures Append(ps, node) == Grown(ps, Above(ps.stack, |ps.stack|), node)
  {
    if ps.stack != [] {
      var top := Top(ps);
      assert IsElement(ps.arena, top);
      assert (ps.arena + [node])[top] == ps.arena[top];
    }
  }

  /** The stack holds no element twice, so only its top gains children. */
  lemma StackDistinct(ps: ParserState, limits: Limits, parents: seq<int>)
    requires WellFormed(ps, limits, parents)
    ensures forall i :: 0 <= i < |ps.stack| ==> Above(ps.stack, i) != Above(ps.stack, |ps.stack|)
  {
    forall i | 0 <= i < |ps.stack| ensures Above(ps.stack, i) != Above(ps.stack, |ps.stack|) {
      if i > 0 { assert Depth(parents, ps.stack[i - 1]) == i; }
      assert Depth(parents, ps.stack[|ps.stack| - 1]) == |ps.stack|;
    }
  }

  // ---- Parser operations ------------------------------------------------------------------

  lemma MergeTextKeeps(ps: ParserState, limits: Limits, parents: seq<int>, last: nat, text: string)
    requires WellFormed(ps, limits, parents) && IsText(ps.arena, last)
    ensures WellFormed(ps.(arena := ps.arena[last := TextNode(text)]), limits, parents)
  {
    hide Kids, LastKid, Depth;
    var t := ps.(arena := ps.arena[last := TextNode(text)]);
    assert Linked(t, parents) && OnPath(t, parents);
    assert Capped(t, limits, parents);
    hide Linked, OnPath, Capped;
    SameShape(ps, t);
  }

  /** Replacing a text by another text keeps text nodes from meeting. */
  lemma SameShape(a: ParserState, b: ParserState)
    requires Merged(a) && a.roots == b.roots && |a.arena| == |b.arena|
    requires forall i :: IsText(b.arena, i) <==> IsText(a.arena, i)
    requires forall i :: 0 <= i < |a.arena| ==> ChildrenOf(b.arena[i]) == ChildrenOf(a.arena[i])
    ensures Merged(b)
  {
    hide IsText, ChildrenOf;
    forall i | 0 <= i < |b.arena| ensures NoTextPair(b.arena, ChildrenOf(b.arena[i])) {
      assert NoTextPair(a.arena, ChildrenOf(a.arena[i]));
    }
  }

  lemma SiblingsAreKids(ps: ParserState, parents: seq<int>)
    requires Linked(ps, parents) && OnPath(ps, parents)
    ensures Siblings(ps) == Kids(parents, Above(ps.stack, |ps.stack|))
  {
    hide Kids, LastKid;
    if ps.stack != [] { assert IsElement(ps.arena, ps.stack[|ps.stack| - 1]); }
  }

  /** The last sibling, if there is one, is a node of the arena. */
  lemma LastSibling(ps: ParserState, limits: Limits, parents: seq<int>)
    requires WellFormed(ps, limits, parents)
    ensures var siblings := Siblings(ps);
      && siblings == Kids(parents, Above(ps.stack, |ps.stack|))
      && (siblings != [] ==> siblings[|siblings| - 1] < |ps.arena|)
      && (ps.stack != [] ==> IsElement(ps.arena, Above(ps.stack, |ps.stack|)))
      && (ps.stack != [] ==> Depth(parents, Above(ps.stack, |ps.stack|)) == |ps.stack|)
  {
    SiblingsAreKids(ps, parents);
    KidsAre(parents, Above(ps.stack, |ps.stack|));
    hide Kids, LastKid, Depth, Merged;
    var siblings := Siblings(ps);
    if siblings != [] { assert siblings[|siblings| - 1] in siblings; }
  }

  lemma PushTextKeeps(ps: ParserState, limits: Limits, raw: string, parents: seq<int>) returns (after: seq<int>)
    requires WellFormed(ps, limits, parents)
    ensures WellFormed(PushText(ps, limits, raw), limits, after)
  {
    hide Sanitized, WellFormed, Kids, Siblings;
    after := parents;
    var text, siblings := Sanitized(raw, false), Siblings(ps);
    LastSibling(ps, limits, parents);
    if text == [] {
    } else if siblings != [] && ps.arena[siblings[|siblings| - 1]].TextNode? {
      var last := siblings[|siblings| - 1];
      MergeTextKeeps(ps, limits, parents, last, ps.arena[last].text + text);
    } else {
      ReserveKeeps(ps, limits, parents);
      var (reserved, ok) := Reserve(ps, limits);
      if ok {
        assert MayGrow(reserved, limits, parents, Above(ps.stack, |ps.stack|), TextNode(text));
        AppendKeeps(reserved, limits, TextNode(text), parents);
        after := parents + [Above(ps.stack, |ps.stack|)];
      }
    }
  }

  lemma PushElementKeeps(ps: ParserState, limits: Limits, tag: string, attrs: map<string, string>, parents: seq<int>)
    returns (after: seq<int>)
    requires WellFormed(ps, limits, parents) && |ps.stack| < limits.maxDepth
    ensures var (t, index) := PushElement(ps, limits, tag, attrs);
      && WellFormed(t, limits, after) && t.stack == ps.stack
      && (index.Some? ==>
            && index.value == |ps.arena| && |t.arena| == |ps.arena| + 1 && IsElement(t.arena, index.value)
            && after == parents + [Above(ps.stack, |ps.stack|)] && Kids(after, index.value) == []
            && Depth(after, index.value) == |ps.stack| + 1
            && LastKid(after, Above(ps.stack, |ps.stack|), index.value))
  {
    hide WellFormed, Kids, Merged, Depth, Siblings;
    var (reserved, ok) := Reserve(ps, limits);
    var parent, node := Above(ps.stack, |ps.stack|), Element(tag, attrs, []);
    ReserveKeeps(ps, limits, parents);
    LastSibling(ps, limits, parents);
    after := parents;
    if ok {
      after := parents + [parent];
      assert MayGrow(reserved, limits, parents, parent, node);
      AppendKeeps(reserved, limits, node, parents);
      PushedElement(reserved, limits, node, parents);
    }
  }

  lemma PushedElement(ps: ParserState, limits: Limits, node: ArenaNode, parents: seq<int>)
    requires WellFormed(ps, limits, parents) && node.Element?
    ensures var (t, parent, index) := (Append(ps, node), Above(ps.stack, |ps.stack|), |ps.arena|);
      var after := parents + [parent];
      && t.stack == ps.stack && |t.arena| == index + 1 && IsElement(t.arena, index)
      && Kids(after, index) == [] && Depth(after, index) == |ps.stack| + 1 && LastKid(after, parent, index)
  {
    hide Kids, Merged;
    var parent, after := Above(ps.stack, |ps.stack|), parents + [Above(ps.stack, |ps.stack|)];
    LastSibling(ps, limits, parents);
    AppendIsGrown(ps, parents, node);
    KidsPush(parents, parent, parent);
    KidsNone(after, |ps.arena|);
    if parent != -1 { DepthStable(parents, parent, parent); }
  }

  lemma PushTextChildKeeps(ps: ParserState, limits: Limits, parent: nat, raw: string, parents: seq<int>)
    returns (after: seq<int>)
    requires WellFormed(ps, limits, parents) && IsElement(ps.arena, parent) && Kids(parents, parent) == []
    requires forall i :: 0 <= i < |ps.stack| ==> ps.stack[i] != parent
    ensures WellFormed(PushTextChild(ps, limits, parent, raw), limits, after)
  {
    hide Sanitized;
    after := parents;
    var text := Sanitized(raw, false);
    ReserveKeeps(ps, limits, parents);
    var (r, ok) := Reserve(ps, limits);
    if text != [] && ok {
      after := parents + [parent];
      var t := Grown(r, parent, TextNode(text));
      assert PushTextChild(ps, limits, parent, raw) == t by {
        assert (r.arena + [TextNode(text)])[parent] == r.arena[parent];
      }
      GrownLinked(r, parents, parent, TextNode(text));
      GrownMerged(r, limits, parents, parent, TextNode(text));
      GrownCapped(r, limits, parents, parent, TextNode(text));
      forall i | 0 <= i < |t.stack|
        ensures IsElement(t.arena, t.stack[i]) && LastKid(after, Above(t.stack, i), t.stack[i])
      {
        GrownPath(r, parents, parent, TextNode(text), i);
      }
    }
  }

  lemma TruncateKeeps(ps: ParserState, limits: Limits, n: nat, parents: seq<int>)
    requires WellFormed(ps, limits, parents) && n <= |ps.stack|
    ensures WellFormed(ps.(stack := ps.stack[..n]), limits, parents)
  {
    var t := ps.(stack := ps.stack[..n]);
    forall i | 0 <= i < n ensures LastKid(parents, Above(t.stack, i), t.stack[i]) {
      assert LastKid(parents, Above(ps.stack, i), ps.stack[i]);
    }
    assert Linked(t, parents) && OnPath(t, parents) && Merged(t) && Capped(t, limits, parents);
  }

  lemma CloseKeeps(ps: ParserState, limits: Limits, name: string, parents: seq<int>)
    requires WellFormed(ps, limits, parents)
    ensures WellFormed(CloseTag(ps, limits, name), limits, parents)
  {
    hide WellFormed, LastOpen;
    ErrorKeeps(ps, limits, StrayClose(name), parents);
    match LastOpen(ps.arena, ps.stack, name)
    case None =>
    case Some(i) =>
      var implied := |ps.stack| - (i + 1);
      ErrorKeeps(ps, limits, ImplicitlyClosed(name, implied), parents);
      TruncateKeeps(if implied > 0 then AddError(ps, limits, ImplicitlyClosed(name, implied))
        else ps, limits, i, parents);
  }

  lemma PushStackKeeps(ps: ParserState, limits: Limits, index: nat, parents: seq<int>)
    requires WellFormed(ps, limits, parents) && |ps.stack| < limits.maxDepth && IsElement(ps.arena, index)
    requires LastKid(parents, Above(ps.stack, |ps.stack|), index) && Depth(parents, index) == |ps.stack| + 1
    ensures WellFormed(ps.(stack := ps.stack + [index]), limits, parents)
  {
    hide Kids, LastKid, Depth, Merged, IsElement, Linked, ChildrenOf;
    var t := ps.(stack := ps.stack + [index]);
    forall i | 0 <= i < |t.stack|
      ensures IsElement(t.arena, t.stack[i]) && LastKid(parents, Above(t.stack, i), t.stack[i]) {
      if i < |ps.stack| { assert LastKid(parents, Above(ps.stack, i), ps.stack[i]); }
    }
    assert Merged(ps) == Merged(t) by { SameForest(ps, t, parents); }
    assert Linked(ps, parents) == Linked(t, parents) by { SameForest(ps, t, parents); }
    assert OnPath(t, parents);
    assert Capped(t, limits, parents);
  }

  lemma SameForest(a: ParserState, b: ParserState, parents: seq<int>)
    requires a.arena == b.arena && a.roots == b.roots
    ensures Merged(a) == Merged(b) && Linked(a, parents) == Linked(b, parents)
  {
  }

  lemma OpenKeeps(ps: ParserState, limits: Limits, s: string, tag: OpenTag, parents: seq<int>) returns (after: seq<int>)
    requires WellFormed(ps, limits, parents) && tag.next <= |s|
    ensures WellFormed(OpenElement(ps, limits, s, tag).0, limits, after)
  {
    hide Lower, Kids, Depth, LastKid, PushTextChild, PushElement, FindString, Linked, Merged;
    after := parents;
    if |ps.stack| >= limits.maxDepth {
      ErrorKeeps(ps, limits, DepthLimit(tag.tag), parents);
    } else {
      after := PushElementKeeps(ps, limits, tag.tag, tag.attrs, parents);
      var (pushed, index) := PushElement(ps, limits, tag.tag, tag.attrs);
      if index.Some? && !tag.selfClosing && !IsVoid(tag.tag) {
        if IsRaw(tag.tag) {
          forall i | 0 <= i < |ps.stack| ensures pushed.stack[i] != index.value {
            assert IsElement(ps.arena, ps.stack[i]);
          }
          after := RawKeeps(pushed, limits, s, tag.tag, index.value, tag.next, after);
        } else {
          PushStackKeeps(pushed, limits, index.value, after);
        }
      }
    }
  }

  lemma RawKeeps(ps: ParserState, limits: Limits, s: string, tag: string, index: nat, at: nat, parents: seq<int>)
    returns (after: seq<int>)
    requires WellFormed(ps, limits, parents) && at <= |s| && IsElement(ps.arena, index) && Kids(parents, index) == []
    requires forall i :: 0 <= i < |ps.stack| ==> ps.stack[i] != index
    ensures WellFormed(RawElement(ps, limits, s, tag, index, at).0, limits, after)
  {
    hide WellFormed, PushTextChild, FindString, Lower;
    match FindString(Lower(s), "</" + tag, at)
    case Some(end) =>
      after := PushTextChildKeeps(ps, limits, index, s[at..end], parents);
    case None =>
      after := PushTextChildKeeps(ps, limits, index, s[at..], parents);
      ErrorKeeps(PushTextChild(ps, limits, index, s[at..]), limits, Unclosed(tag), after);
  }

  lemma MarkupKeeps(ps: ParserState, limits: Limits, s: string, open: nat, parents: seq<int>) returns (after: seq<int>)
    requires WellFormed(ps, limits, parents) && open < |s| && s[open] == '<'
    ensures WellFormed(Markup(ps, limits, s, open).0, limits, after)
  {
    hide WellFormed, FindString, Lower, ReadOpenTag, OpenElement, PushText, CloseTag;
    after := parents;
    if MatchesAt(s, "<!--", open) {
    } else if open + 1 < |s| && s[open + 1] == '/' {
      CloseKeeps(ps, limits, Lower(s[open + 2..NameEnd(s, open + 2)]), parents);
    } else if open + 1 == |s| || !IsAlpha(s[open + 1]) || ReadOpenTag(s, open).None? {
      after := PushTextKeeps(ps, limits, "<", parents);
    } else {
      after := OpenKeeps(ps, limits, s, ReadOpenTag(s, open).value, parents);
    }
  }

  lemma {:induction false} ParseKeeps(ps: ParserState, limits: Limits, s: string, offset: nat, parents: seq<int>)
    returns (after: seq<int>)
    requires WellFormed(ps, limits, parents) && offset <= |s|
    ensures WellFormed(ParseFrom(ps, limits, s, offset), limits, after)
    decreases |s| - offset
  {
    hide WellFormed, PushText, Markup;
    after := parents;
    if offset < |s| && !ps.nodeLimitReported {
      var open := Find(s, '<', offset);
      if open == |s| {
        after := PushTextKeeps(ps, limits, s[offset..], parents);
      } else {
        var before := ps;
        if open > offset {
          after := PushTextKeeps(ps, limits, s[offset..open], parents);
          before := PushText(ps, limits, s[offset..open]);
        }
        if !before.nodeLimitReported {
          after := MarkupKeeps(before, limits, s, open, after);
          var (t, next) := Markup(before, limits, s, open);
          if next.Some? {
            after := ParseKeeps(t, limits, s, next.value, after);
          }
        }
      }
    }
  }

  lemma StartIsWellFormed(limits: Limits)
    ensures WellFormed(START, limits, [])
  {
  }

  /** Parsing any input under any limits ends in a well-formed forest within them. */
  lemma ParsedIsWellFormed(input: string, limits: Limits) returns (parents: seq<int>)
    ensures WellFormed(Parsed(input, limits), limits, parents)
  {
    hide ParseFrom, StackTags, Kids;
    var s := input[..Min(|input|, limits.maxInput)];
    StartIsWellFormed(limits);
    hide WellFormed;
    ErrorKeeps(START, limits, Truncated, []);
    var start := if |s| < |input| then AddError(START, limits, Truncated) else START;
    parents := ParseKeeps(start, limits, s, 0, []);
    var t := ParseFrom(start, limits, s, 0);
    ErrorKeeps(t, limits, UnclosedTags(StackTags(t.arena, t.stack)), parents);
  }

  /** Strictly increasing, so without repetition. */
  ghost predicate Ascending(kids: seq<nat>) {
    forall a, b :: 0 <= a < b < |kids| ==> kids[a] < kids[b]
  }

  /** In a well-formed state every arena index is listed exactly once, below a smaller index or at the top. */
  lemma EveryIndexOnce(ps: ParserState, limits: Limits, parents: seq<int>, j: nat, p: int)
    requires WellFormed(ps, limits, parents) && j < |ps.arena| && -1 <= p < |ps.arena|
    ensures -1 <= parents[j] < j
    ensures j in KidsOf(ps, p) <==> parents[j] == p
    ensures Ascending(KidsOf(ps, p))
  {
    hide OnPath, Merged, Capped;
    KidsAre(parents, p);
    hide Kids;
  }
}
