/**
 Reading a tree out for display: a pre-order walk from the root, each node with
 the icon it inherits (internal/usecase/discovery_snapshot.go, ancestors in
 internal/usecase/discovery_tree.go, internal/domain/discovery/icon_resolve.go).
 */
module DiscoverySnapshot {
  import opened Basics
  import opened Discovery
  import opened SiblingOrder
  import opened Ancestry
  import opened Forest
  import opened DiscoveryTree

  datatype NodeView = NodeView(node: Node, icon: string)

  function ViewIds(views: seq<NodeView>): (ids: seq<string>)
    ensures |ids| == |views|
    ensures forall i :: 0 <= i < |ids| ==> ids[i] == views[i].node.id
  {
    seq(|views|, i requires 0 <= i < |views| => views[i].node.id)
  }

  // ----- the icon -------------------------------------------------------------------------

  /** The proper ancestors of x, nearest first, all the way to the root. */
  ghost predicate IsAncestorChain(t: Tree, x: string, chain: seq<Node>) {
    && Climbs(Up(t.nodes), x, ROOT, |chain| + 1)
    && forall i :: 0 <= i < |chain| ==>
         && chain[i].id in t.nodes && chain[i] == t.nodes[chain[i].id]
         && Climbs(Up(t.nodes), x, chain[i].id, i + 1)
  }

  /** The bounded walk up is not cut short: it collects every ancestor, nearest first. */
  method Ancestors(tree: Plot, node: Node) returns (chain: seq<Node>)
    requires tree.Valid() && node.id in tree.nodes && tree.nodes[node.id] == node
    ensures IsAncestorChain(tree.View(), node.id, chain)
  {
    chain := [];
    var parentId := node.parentId;
    ghost var t, up := tree.View(), Up(tree.nodes);
    ghost var rank := RankOf(t);
    assert RankFits(up, ROOT, MAX_DEPTH, rank, node.id);
    assert Climbs(up, node.id, parentId, 1);
    while parentId != ROOT
      invariant Climbs(up, node.id, parentId, |chain| + 1) && (parentId == ROOT || parentId in tree.nodes)
      invariant forall i :: 0 <= i < |chain| ==>
                  && chain[i].id in t.nodes && chain[i] == t.nodes[chain[i].id]
                  && Climbs(up, node.id, chain[i].id, i + 1)
      invariant |chain| <= MAX_DEPTH
      decreases MAX_DEPTH + 2 - |chain|
    {
      if parentId !in tree.nodes {
        break;
      }
      var parent := tree.nodes[parentId];
      assert RankFits(up, ROOT, MAX_DEPTH, rank, parentId) && RankFits(up, ROOT, MAX_DEPTH, rank, node.id);
      ClimbMeasured(up, ROOT, MAX_DEPTH, rank, node.id, parentId, |chain| + 1);
      ClimbOneMore(up, node.id, parentId, |chain| + 1);
      chain := chain + [parent];
      if |chain| > MAX_DEPTH + 1 {
        break;
      }
      parentId := parent.parentId;
    }
  }

  /** Its own icon, else that of the nearest ancestor that has one, else none. */
  ghost predicate Inherits(own: string, chain: seq<Node>, icon: string) {
    if own != "" then icon == own
    else
      || (icon == "" && forall i :: 0 <= i < |chain| ==> chain[i].iconId == "")
      || exists i :: 0 <= i < |chain| && chain[i].iconId == icon && icon != ""
                     && forall j :: 0 <= j < i ==> chain[j].iconId == ""
  }

  method ResolveIcon(node: Node, ancestors: seq<Node>) returns (icon: string)
    ensures Inherits(node.iconId, ancestors, icon)
  {
    if node.iconId != "" {
      return node.iconId;
    }
    for i := 0 to |ancestors|
      invariant forall j :: 0 <= j < i ==> ancestors[j].iconId == ""
    {
      if ancestors[i].iconId != "" {
        return ancestors[i].iconId;
      }
    }
    return "";
  }

  ghost predicate Shows(t: Tree, view: NodeView) {
    && view.node.id in t.nodes && view.node == t.nodes[view.node.id]
    && exists chain :: IsAncestorChain(t, view.node.id, chain) && Inherits(view.node.iconId, chain, view.icon)
  }

  // ----- the walk ---------------------------------------------------------------------------

  /** Every id comes after its parent, unless the parent is the one walked from. */
  ghost predicate ParentsFirst<K>(up: map<K, K>, from: K, ids: seq<K>) {
    forall v :: 0 <= v < |ids| ==> ids[v] in up && (up[ids[v]] == from || up[ids[v]] in ids[..v])
  }

  ghost predicate SiblingsInOrder(t: Tree, ids: seq<string>) {
    forall u, v :: (0 <= u < v < |ids| && ids[u] in t.nodes && ids[v] in t.nodes
                    && t.nodes[ids[u]].parentId == t.nodes[ids[v]].parentId)
                   ==> Before(t.nodes[ids[u]], t.nodes[ids[v]])
  }

  /** ids lists what is below the given children of p: each once, parents first, siblings in order. */
  ghost predicate Walked(t: Tree, p: string, kids: seq<string>, ids: seq<string>) {
    && NoDup(ids) && SetOf(ids) == Cover(Up(t.nodes), kids)
    && ParentsFirst(Up(t.nodes), p, ids)
    && SiblingsInOrder(t, ids)
  }

  lemma ParentsFirstAppend<K>(up: map<K, K>, p: K, ids: seq<K>, c: K, below: seq<K>)
    requires ParentsFirst(up, p, ids) && c in up && up[c] == p && ParentsFirst(up, c, below)
    ensures ParentsFirst(up, p, ids + [c] + below)
  {
    var all := ids + [c] + below;
    forall v | 0 <= v < |all|
      ensures all[v] in up && (up[all[v]] == p || up[all[v]] in all[..v])
    {
      if v < |ids| {
        assert all[..v] == ids[..v];
      } else if v > |ids| {
        var w := v - |ids| - 1;
        assert all[..v] == ids + [c] + below[..w];
        assert all[v] == below[w];
      }
    }
  }

  /** Two nodes below different children of p have different parents, unless they are those children. */
  lemma CousinsDiffer<K(!new)>(up: map<K, K>, root: K, limit: nat, rank: map<K, nat>, a: K, b: K, x: K, y: K)
    requires Ranked(up, root, limit, rank) && a in up && b in up && a != b && up[a] == up[b]
    requires x in up && y in up && Under(up, x, a) && Under(up, y, b) && up[x] == up[y]
    ensures x == a && y == b
  {
    UnderViaParent(up, x, a);
    UnderViaParent(up, y, b);
    ParentIsNotBelow(up, root, limit, rank, a);
    ParentIsNotBelow(up, root, limit, rank, b);
    if x != a && y != b {
      SiblingsApart(up, root, limit, rank, a, b, up[x]);
    }
  }

  lemma SiblingsInOrderAppend(t: Tree, p: string, kids: seq<string>, i: nat, ids: seq<string>, below: seq<string>)
    requires IsForest(t) && kids == t.Kids(p) && i < |kids|
    requires SiblingsInOrder(t, ids) && SetOf(ids) == Cover(Up(t.nodes), kids[..i])
    requires SiblingsInOrder(t, below) && SetOf(below) == Cover(Up(t.nodes), t.Kids(kids[i]))
    ensures SiblingsInOrder(t, ids + [kids[i]] + below)
  {
    var c := kids[i];
    var all := ids + [c] + below;
    forall u, v | 0 <= u < v < |all| && all[u] in t.nodes && all[v] in t.nodes
                  && t.nodes[all[u]].parentId == t.nodes[all[v]].parentId
      ensures Before(t.nodes[all[u]], t.nodes[all[v]])
    {
      if v < |ids| {
        assert all[u] == ids[u] && all[v] == ids[v];
      } else if u > |ids| {
        assert all[u] == below[u - |ids| - 1] && all[v] == below[v - |ids| - 1];
      } else if u == |ids| {
        assert all[v] == below[v - |ids| - 1] && all[v] in SetOf(below);
        ChildIsNotBeside(t, p, kids, i, all[v]);
      } else {
        assert all[u] == ids[u] && all[u] in SetOf(ids);
        assert all[v] == c || all[v] in SetOf(below) by {
          if v > |ids| { assert all[v] == below[v - |ids| - 1]; }
        }
        AcrossKids(t, p, kids, i, all[u], all[v]);
      }
    }
  }

  /** What is below a child has another parent than the child. */
  lemma ChildIsNotBeside(t: Tree, p: string, kids: seq<string>, i: nat, y: string)
    requires IsForest(t) && kids == t.Kids(p) && i < |kids| && y in Cover(Up(t.nodes), t.Kids(kids[i]))
    ensures kids[i] in t.nodes && y in t.nodes && t.nodes[kids[i]].parentId != t.nodes[y].parentId
  {
    var up, rank, c := Up(t.nodes), RankOf(t), kids[i];
    TreeKids(t, p);
    TreeKids(t, c);
    KidsCover(up, ROOT, MAX_DEPTH, rank, c, t.Kids(c));
    assert y in Below(up, c) && y != c;
    UnderViaParent(up, y, c);
    ParentIsNotBelow(up, ROOT, MAX_DEPTH, rank, c);
  }

  /** Of two nodes below different children, only the children themselves can be siblings, and those are in order. */
  lemma AcrossKids(t: Tree, p: string, kids: seq<string>, i: nat, x: string, y: string)
    requires IsForest(t) && kids == t.Kids(p) && i < |kids| && x in t.nodes && y in t.nodes
    requires x in Cover(Up(t.nodes), kids[..i]) && (y == kids[i] || y in Cover(Up(t.nodes), t.Kids(kids[i])))
    requires t.nodes[x].parentId == t.nodes[y].parentId
    ensures Before(t.nodes[x], t.nodes[y])
  {
    var up, rank, c := Up(t.nodes), RankOf(t), kids[i];
    TreeKids(t, p);
    TreeKids(t, c);
    KidsCover(up, ROOT, MAX_DEPTH, rank, c, t.Kids(c));
    UnderItself(up, c);
    var j :| 0 <= j < i && Under(up, x, kids[..i][j]);
    assert y in Below(up, c);
    CousinsDiffer(up, ROOT, MAX_DEPTH, rank, kids[j], c, x, y);
  }

  lemma CoverSnoc<K>(up: map<K, K>, kids: seq<K>, i: nat)
    requires i < |kids|
    ensures Cover(up, kids[..i + 1]) == Cover(up, kids[..i]) + Below(up, kids[i])
  {
    CoverAppend(up, kids[..i], [kids[i]]);
    CoverOne(up, kids[i]);
    assert kids[..i + 1] == kids[..i] + [kids[i]];
  }

  lemma CoverOneMore(t: Tree, p: string, kids: seq<string>, i: nat)
    requires IsForest(t) && kids == t.Kids(p) && i < |kids|
    ensures var up, c := Up(t.nodes), kids[i];
            && c in up && up[c] == p
            && Cover(up, kids[..i + 1]) == Cover(up, kids[..i]) + {c} + Cover(up, t.Kids(c))
            && c !in Cover(up, kids[..i]) && c !in Cover(up, t.Kids(c))
            && Cover(up, kids[..i]) !! Cover(up, t.Kids(c))
  {
    var up, c := Up(t.nodes), kids[i];
    TreeKids(t, p);
    TreeKids(t, c);
    KidsCover(up, ROOT, MAX_DEPTH, RankOf(t), c, t.Kids(c));
    CoverSnoc(up, kids, i);
    SiblingsCovered(t, p, kids, i);
  }

  lemma ListOneMore(ids: seq<string>, c: string, below: seq<string>)
    requires NoDup(ids) && NoDup(below) && c !in SetOf(ids) && c !in SetOf(below) && SetOf(ids) !! SetOf(below)
    ensures NoDup(ids + [c] + below) && SetOf(ids + [c] + below) == SetOf(ids) + {c} + SetOf(below)
  {
    assert SetOf([c]) == {c};
    NoDupAppend(ids, [c]);
    NoDupAppend(ids + [c], below);
  }

  lemma WalkOneMore(t: Tree, p: string, kids: seq<string>, i: nat, ids: seq<string>, below: seq<string>)
    requires IsForest(t) && kids == t.Kids(p) && i < |kids|
    requires Walked(t, p, kids[..i], ids) && Walked(t, kids[i], t.Kids(kids[i]), below)
    ensures Walked(t, p, kids[..i + 1], ids + [kids[i]] + below)
  {
    CoverOneMore(t, p, kids, i);
    ListOneMore(ids, kids[i], below);
    ParentsFirstAppend(Up(t.nodes), p, ids, kids[i], below);
    SiblingsInOrderAppend(t, p, kids, i, ids, below);
  }

  lemma SiblingsCovered(t: Tree, p: string, kids: seq<string>, i: nat)
    requires IsForest(t) && kids == t.Kids(p) && i < |kids|
    ensures Cover(Up(t.nodes), kids[..i]) !! Below(Up(t.nodes), kids[i])
  {
    var up, rank := Up(t.nodes), RankOf(t);
    TreeKids(t, p);
    forall x | x in Cover(up, kids[..i]) && x in Below(up, kids[i])
      ensures false
    {
      var j :| 0 <= j < i && Under(up, x, kids[..i][j]);
      SiblingsApart(up, ROOT, MAX_DEPTH, rank, kids[j], kids[i], x);
    }
  }

  lemma RootCoversAll(t: Tree)
    requires IsForest(t)
    ensures Cover(Up(t.nodes), t.Kids(ROOT)) == t.nodes.Keys
  {
    var up, rank, kids := Up(t.nodes), RankOf(t), t.Kids(ROOT);
    TreeKids(t, ROOT);
    forall x | x in up
      ensures x in Cover(up, kids)
    {
      ClimbToRoot(up, ROOT, MAX_DEPTH, rank, x);
      assert RankFits(up, ROOT, MAX_DEPTH, rank, x);
      var c := ClimbThroughChild(up, x, ROOT, rank[x]);
      assert Under(up, x, c);
      var i :| 0 <= i < |kids| && kids[i] == c;
    }
  }

  lemma KidIsDeeper(t: Tree, p: string, i: nat)
    requires IsForest(t) && i < |t.Kids(p)|
    ensures t.Kids(p)[i] in t.nodes && t.nodes[t.Kids(p)[i]].parentId == p && t.nodes[t.Kids(p)[i]].id == t.Kids(p)[i]
    ensures (p == ROOT || p in t.nodes) && Depth(t, t.Kids(p)[i]) == Depth(t, p) + 1
  {
    TreeKids(t, p);
    assert ListsItsOwn(Up(t.nodes), ROOT, t.children, p);
    assert RankFits(Up(t.nodes), ROOT, MAX_DEPTH, RankOf(t), t.Kids(p)[i]);
  }

  lemma WalkNothing(t: Tree, p: string, kids: seq<string>)
    ensures Walked(t, p, kids[..0], [])
  {
    assert Cover(Up(t.nodes), kids[..0]) == {};
  }

  method ShowNode(tree: Plot, id: string) returns (view: NodeView)
    requires tree.Valid() && id in tree.nodes && tree.nodes[id].id == id
    ensures Shows(tree.View(), view) && view.node == tree.nodes[id]
  {
    var node := tree.nodes[id];
    var chain := Ancestors(tree, node);
    var icon := ResolveIcon(node, chain);
    view := NodeView(node, icon);
  }

  ghost predicate AllShown(t: Tree, views: seq<NodeView>) {
    forall i :: 0 <= i < |views| ==> Shows(t, views[i])
  }

  lemma ViewsJoined(t: Tree, views: seq<NodeView>, view: NodeView, below: seq<NodeView>)
    requires AllShown(t, views) && Shows(t, view) && AllShown(t, below)
    ensures AllShown(t, views + [view] + below)
    ensures ViewIds(views + [view] + below) == ViewIds(views) + [view.node.id] + ViewIds(below)
  {
  }

  /** The nodes below parentId, in pre-order: each child followed by what is below it. */
  method Walk(tree: Plot, parentId: string) returns (views: seq<NodeView>)
    requires tree.Valid()
    ensures Walked(tree.View(), parentId, tree.View().Kids(parentId), ViewIds(views))
    ensures AllShown(tree.View(), views)
    decreases MAX_DEPTH - Depth(tree.View(), parentId)
  {
    views := [];
    ghost var t := tree.View();
    var kids := if parentId in tree.children then tree.children[parentId] else [];
    WalkNothing(t, parentId, kids);
    assert ViewIds(views) == [];
    for i := 0 to |kids|
      invariant Walked(t, parentId, kids[..i], ViewIds(views)) && AllShown(t, views)
    {
      KidIsDeeper(t, parentId, i);
      var view := ShowNode(tree, kids[i]);
      var below := Walk(tree, kids[i]);
      WalkOneMore(t, parentId, kids, i, ViewIds(views), ViewIds(below));
      ViewsJoined(t, views, view, below);
      views := views + [view] + below;
    }
    assert kids[..|kids|] == kids;
  }

  /**
   The snapshot of one plugin's tree: every stored node exactly once, with its
   icon, each after its parent and siblings in their order.
   */
  method ViewNodes(tree: Plot) returns (views: seq<NodeView>)
    requires tree.Valid()
    ensures NoDup(ViewIds(views)) && SetOf(ViewIds(views)) == tree.nodes.Keys
    ensures ParentsFirst(Up(tree.nodes), ROOT, ViewIds(views))
    ensures SiblingsInOrder(tree.View(), ViewIds(views))
    ensures AllShown(tree.View(), views)
  {
    views := Walk(tree, ROOT);
    RootCoversAll(tree.View());
  }
}
