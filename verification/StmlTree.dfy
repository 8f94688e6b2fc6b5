/** From the parser's arena to the tree it stands for: every node once, none left behind. */
module StmlTree {
  import opened Text
  import opened DiffModel
  import opened StmlParse
  import opened StmlProofs

  datatype StmlNode = StmlText(text: string) | StmlElement(tag: string, attrs: map<string, string>,
                                                           children: seq<StmlNode>)

  ghost predicate Between(nodes: seq<nat>, above: int, below: nat) {
    forall i :: 0 <= i < |nodes| ==> above < nodes[i] < below
  }

  /** Children have larger indices than their parents. */
  ghost predicate Downward(arena: seq<ArenaNode>) {
    forall i :: 0 <= i < |arena| ==> Between(ChildrenOf(arena[i]), i, |arena|)
  }

  ghost function Materialize(arena: seq<ArenaNode>, i: nat): StmlNode
    requires Downward(arena) && i < |arena|
    decreases |arena| - i, 1, 0
  {
    match arena[i]
    case TextNode(text) => StmlText(text)
    case Element(tag, attrs, children) =>
      assert ChildrenOf(arena[i]) == children;
      StmlElement(tag, attrs, MaterializeAll(arena, children, i))
  }

  /** The trees of a list of nodes, all larger than `above`. */
  ghost function MaterializeAll(arena: seq<ArenaNode>, nodes: seq<nat>, above: int): (trees: seq<StmlNode>)
    requires Downward(arena) && Between(nodes, above, |arena|)
    requires above >= -1
    ensures |trees| == |nodes|
    decreases |arena| - above, 0, |nodes|
  {
    if nodes == [] then []
    else MaterializeAll(arena, nodes[..|nodes| - 1], above) + [Materialize(arena, nodes[|nodes| - 1])]
  }

  function Size(node: StmlNode): nat {
    match node
    case StmlText(_) => 1
    case StmlElement(_, _, children) => 1 + SizeAll(children)
  }

  function SizeAll(nodes: seq<StmlNode>): nat {
    if nodes == [] then 0 else SizeAll(nodes[..|nodes| - 1]) + Size(nodes[|nodes| - 1])
  }

  // ---- Counting ---------------------------------------------------------------------------

  ghost function SizeAt(arena: seq<ArenaNode>, i: nat): nat
    requires Downward(arena) && i < |arena|
  {
    Size(Materialize(arena, i))
  }

  /** Nodes of the trees rooted at the children of p among the first m nodes. */
  ghost function KidSizes(arena: seq<ArenaNode>, parents: seq<int>, p: int, m: nat): nat
    requires Downward(arena) && m <= |parents| == |arena|
  {
    if m == 0 then 0
    else KidSizes(arena, parents, p, m - 1) + (if parents[m - 1] == p then SizeAt(arena, m - 1) else 0)
  }

  lemma SizePush(arena: seq<ArenaNode>, nodes: seq<nat>, k: nat, above: int)
    requires Downward(arena) && above >= -1 && Between(nodes, above, |arena|) && above < k < |arena|
    ensures Between(nodes + [k], above, |arena|)
    ensures SizeAll(MaterializeAll(arena, nodes + [k], above)) == SizeAll(MaterializeAll(arena, nodes, above))
      + SizeAt(arena, k)
  {
    hide Materialize, Size;
    assert (nodes + [k])[..|nodes|] == nodes;
    var trees := MaterializeAll(arena, nodes + [k], above);
    assert trees[..|trees| - 1] == MaterializeAll(arena, nodes, above);
  }

  lemma {:induction false} KidSizesAreKids(arena: seq<ArenaNode>, parents: seq<int>, p: int, m: nat)
    requires Downward(arena) && m <= |parents| == |arena| && -1 <= p
    requires forall j :: 0 <= j < |parents| ==> parents[j] < j
    ensures Between(Kids(parents[..m], p), p, |arena|)
    ensures SizeAll(MaterializeAll(arena, Kids(parents[..m], p), p)) == KidSizes(arena, parents, p, m)
  {
    hide SizeAt, Materialize, Size, Downward;
    if m > 0 {
      hide Kids, MaterializeAll, SizeAll, Between;
      KidSizesAreKids(arena, parents, p, m - 1);
      assert parents[..m] == parents[..m - 1] + [parents[m - 1]];
      KidsPush(parents[..m - 1], parents[m - 1], p);
      var kids := Kids(parents[..m - 1], p);
      if parents[m - 1] == p {
        SizePush(arena, kids, m - 1, p);
      } else {
        assert kids + [] == kids;
      }
    }
  }

  /** Nodes of the trees that hang from below k but start at or above it. */
  ghost function Frontier(arena: seq<ArenaNode>, parents: seq<int>, k: nat, m: nat): nat
    requires Downward(arena) && m <= |parents| == |arena|
  {
    if m == 0 then 0
    else Frontier(arena, parents, k, m - 1) + (if parents[m - 1] < k <= m - 1 then SizeAt(arena, m - 1) else 0)
  }

  /** Opening node k replaces its tree by its children's trees in the frontier. */
  lemma {:induction false} FrontierStep(arena: seq<ArenaNode>, parents: seq<int>, k: nat, m: nat)
    requires Downward(arena) && m <= |parents| == |arena| && k < |arena|
    requires forall j :: 0 <= j < |parents| ==> parents[j] < j
    ensures Frontier(arena, parents, k, m) + KidSizes(arena, parents, k, m)
         == Frontier(arena, parents, k + 1, m) + (if k < m then SizeAt(arena, k) else 0)
  {
    if m > 0 { FrontierStep(arena, parents, k, m - 1); }
  }

  lemma {:induction false} FrontierEnds(arena: seq<ArenaNode>, parents: seq<int>, k: nat, m: nat)
    requires Downward(arena) && m <= |parents| == |arena| <= k
    ensures Frontier(arena, parents, k, m) == 0
  {
    if m > 0 { FrontierEnds(arena, parents, k, m - 1); }
  }

  lemma {:induction false} FrontierStarts(arena: seq<ArenaNode>, parents: seq<int>, m: nat)
    requires Downward(arena) && m <= |parents| == |arena|
    requires forall j :: 0 <= j < |parents| ==> -1 <= parents[j]
    ensures Frontier(arena, parents, 0, m) == KidSizes(arena, parents, -1, m)
  {
    if m > 0 { FrontierStarts(arena, parents, m - 1); }
  }

  lemma LinkedIsDownward(ps: ParserState, parents: seq<int>)
    requires Linked(ps, parents)
    ensures Downward(ps.arena)
  {
    hide Kids;
    forall i | 0 <= i < |ps.arena| ensures Between(ChildrenOf(ps.arena[i]), i, |ps.arena|) {
      KidsAre(parents, i);
      var kids := ChildrenOf(ps.arena[i]);
      assert forall c :: 0 <= c < |kids| ==> kids[c] in kids;
    }
  }

  lemma NodeSize(ps: ParserState, parents: seq<int>, k: nat)
    requires Linked(ps, parents) && Downward(ps.arena) && k < |ps.arena|
    ensures SizeAt(ps.arena, k) == 1 + KidSizes(ps.arena, parents, k, |parents|)
  {
    hide Kids, KidSizes;
    assert parents[..|parents|] == parents;
    KidSizesAreKids(ps.arena, parents, k, |parents|);
    assert ChildrenOf(ps.arena[k]) == Kids(parents, k);
  }

  lemma {:induction false} FrontierCounts(ps: ParserState, parents: seq<int>, k: nat)
    requires Linked(ps, parents) && Downward(ps.arena) && k <= |ps.arena|
    ensures Frontier(ps.arena, parents, k, |parents|) == |ps.arena| - k
    decreases |ps.arena| - k
  {
    hide Frontier, KidSizes, SizeAt, Kids;
    if k == |ps.arena| {
      FrontierEnds(ps.arena, parents, k, |parents|);
    } else {
      FrontierCounts(ps, parents, k + 1);
      FrontierStep(ps.arena, parents, k, |parents|);
      NodeSize(ps, parents, k);
    }
  }

  /** The materialized forest has exactly as many nodes as the arena. */
  lemma MaterializedIsComplete(ps: ParserState, limits: Limits, parents: seq<int>)
    requires WellFormed(ps, limits, parents)
    ensures Downward(ps.arena) && Between(ps.roots, -1, |ps.arena|)
    ensures SizeAll(MaterializeAll(ps.arena, ps.roots, -1)) == |ps.arena| <= limits.maxNodes
  {
    hide OnPath, Merged, Kids, Frontier, KidSizes;
    LinkedIsDownward(ps, parents);
    FrontierCounts(ps, parents, 0);
    FrontierStarts(ps.arena, parents, |parents|);
    KidSizesAreKids(ps.arena, parents, -1, |parents|);
    assert parents[..|parents|] == parents;
  }
}
