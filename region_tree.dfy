/** regions::ForEachLevelPath: a pre-order walk of a region tree that calls back on every node whose
    place level is known. */
module RegionTree {
  /** The node's PlaceLevel; the walk only asks whether it is Unknown. */
  datatype PlaceLevel = Unknown | Known(rank: nat)

  /** A PlaceNode<LevelRegion>::Ptr: null, or a node with its region data, its level and its children. */
  datatype Tree<R> = Nil | Node(region: R, level: PlaceLevel, children: seq<Tree<R>>)

  /** The nodes the callback is called on, in call order (the callback receives MakeLevelPath of each). */
  function ForEachLevelPath<R>(tree: Tree<R>): seq<Tree<R>>
    decreases tree
  {
    match tree
    case Nil => []
    case Node(_, level, children) => (if level != Unknown then [tree] else []) + ForEachSubtree(children)
  }

  /** The loop over GetChildren(): each subtree walked in turn. */
  function ForEachSubtree<R>(children: seq<Tree<R>>): seq<Tree<R>>
    decreases children
  {
    if children == [] then [] else ForEachLevelPath(children[0]) + ForEachSubtree(children[1..])
  }

  predicate IsKnown<R>(t: Tree<R>)
  {
    t.Node? && t.level != Unknown
  }

  /** The nodes with a known level, counted on their own: the reference for the number of calls. */
  function KnownCount<R>(tree: Tree<R>): nat
    decreases tree
  {
    match tree
    case Nil => 0
    case Node(_, level, children) => (if level != Unknown then 1 else 0) + KnownCountAll(children)
  }

  function KnownCountAll<R>(children: seq<Tree<R>>): nat
    decreases children
  {
    if children == [] then 0 else KnownCount(children[0]) + KnownCountAll(children[1..])
  }

  /** Every node of the tree in pre-order, whatever its level. */
  function PreOrder<R>(tree: Tree<R>): seq<Tree<R>>
    decreases tree
  {
    match tree
    case Nil => []
    case Node(_, _, children) => [tree] + PreOrderAll(children)
  }

  function PreOrderAll<R>(children: seq<Tree<R>>): seq<Tree<R>>
    decreases children
  {
    if children == [] then [] else PreOrder(children[0]) + PreOrderAll(children[1..])
  }

  /** The nodes of a list that have a known level, in order. */
  function KnownOnly<R>(nodes: seq<Tree<R>>): seq<Tree<R>>
  {
    if nodes == [] then [] else (if IsKnown(nodes[0]) then [nodes[0]] else []) + KnownOnly(nodes[1..])
  }

  lemma {:induction false} KnownOnlyAppend<R>(a: seq<Tree<R>>, b: seq<Tree<R>>)
    ensures KnownOnly(a + b) == KnownOnly(a) + KnownOnly(b)
  {
    if a != [] {
      assert (a + b)[1..] == a[1..] + b;
      KnownOnlyAppend(a[1..], b);
    } else {
      assert a + b == b;
    }
  }

  /** The calls are exactly the pre-order nodes with a known level: a node's call precedes those of its
      descendants, subtrees are walked in child order, and an Unknown node is skipped but its subtree is
      not. */
  lemma {:induction false} CallsArePreOrderKnownNodes<R>(tree: Tree<R>)
    ensures ForEachLevelPath(tree) == KnownOnly(PreOrder(tree))
    decreases tree
  {
    match tree
    case Nil =>
    case Node(_, _, children) =>
      CallsArePreOrderKnownNodesAll(children);
      KnownOnlyAppend([tree], PreOrderAll(children));
      assert [tree][1..] == [];
  }

  lemma {:induction false} CallsArePreOrderKnownNodesAll<R>(children: seq<Tree<R>>)
    ensures ForEachSubtree(children) == KnownOnly(PreOrderAll(children))
    decreases children
  {
    if children != [] {
      CallsArePreOrderKnownNodes(children[0]);
      CallsArePreOrderKnownNodesAll(children[1..]);
      KnownOnlyAppend(PreOrder(children[0]), PreOrderAll(children[1..]));
    }
  }

  /** There is one call per node with a known level. */
  lemma {:induction false} CallCountIsKnownCount<R>(tree: Tree<R>)
    ensures |ForEachLevelPath(tree)| == KnownCount(tree)
    decreases tree
  {
    match tree
    case Nil =>
    case Node(_, _, children) => CallCountIsKnownCountAll(children);
  }

  lemma {:induction false} CallCountIsKnownCountAll<R>(children: seq<Tree<R>>)
    ensures |ForEachSubtree(children)| == KnownCountAll(children)
    decreases children
  {
    if children != [] {
      CallCountIsKnownCount(children[0]);
      CallCountIsKnownCountAll(children[1..]);
    }
  }

  /** Every call is on a node with a known level. */
  lemma {:induction false} CallsAreOnKnownNodes<R>(tree: Tree<R>, i: nat)
    requires i < |ForEachLevelPath(tree)|
    ensures IsKnown(ForEachLevelPath(tree)[i])
  {
    CallsArePreOrderKnownNodes(tree);
    KnownOnlyKnown(PreOrder(tree), i);
  }

  lemma {:induction false} KnownOnlyKnown<R>(nodes: seq<Tree<R>>, i: nat)
    requires i < |KnownOnly(nodes)|
    ensures IsKnown(KnownOnly(nodes)[i])
  {
    if IsKnown(nodes[0]) {
      if i > 0 {
        KnownOnlyKnown(nodes[1..], i - 1);
      }
    } else {
      KnownOnlyKnown(nodes[1..], i);
    }
  }
}
