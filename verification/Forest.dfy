/**
 One plugin's tree as a value: three maps that must describe the same forest
 rooted at "" (internal/usecase/discovery_tree.go).
 */
module Forest {
  import opened Discovery
  import opened SiblingOrder
  import opened Ancestry

  const ROOT: string := ""

  datatype Tree = Tree(
    nodes: map<string, Node>, children: map<string, seq<string>>, branches: map<string, Branch>) {

    function Kids(id: string): seq<string> {
      if id in children then children[id] else []
    }
  }

  const EMPTY_TREE := Tree(map[], map[], map[])

  /** The parent links of a node map. */
  function Up(nodes: map<string, Node>): map<string, string> {
    map x | x in nodes :: nodes[x].parentId
  }

  /** The three maps agree: every node is listed once, under its own parent and in order. */
  ghost predicate Linked(t: Tree) {
    && Listed(Up(t.nodes), ROOT, t.children)
    && (forall x :: x in t.nodes ==> t.nodes[x].id == x)
    && (forall p :: p in t.children ==> InOrder(t.nodes, t.children[p]))
    && t.branches.Keys == t.children.Keys
  }

  ghost predicate Shallow(t: Tree) {
    exists rank :: Ranked(Up(t.nodes), ROOT, MAX_DEPTH, rank)
  }

  /** The invariant of every stored tree. */
  ghost predicate IsForest(t: Tree) {
    Linked(t) && Shallow(t) && |t.nodes| <= MAX_NODES_PER_PLUGIN
  }

  lemma EmptyIsForest()
    ensures IsForest(EMPTY_TREE)
  {
    var rank: map<string, nat> := map[];
    assert Ranked(Up(map[]), ROOT, MAX_DEPTH, rank);
  }

  ghost function RankOf(t: Tree): (rank: map<string, nat>)
    requires Shallow(t)
    ensures Ranked(Up(t.nodes), ROOT, MAX_DEPTH, rank)
  {
    var rank :| Ranked(Up(t.nodes), ROOT, MAX_DEPTH, rank);
    rank
  }

  /** Distance from the root: 0 for the root itself, and for an id the tree does not hold. */
  ghost function Depth(t: Tree, id: string): (d: nat)
    requires Shallow(t)
    ensures d <= MAX_DEPTH
  {
    if id in t.nodes then
      assert RankFits(Up(t.nodes), ROOT, MAX_DEPTH, RankOf(t), id);
      RankOf(t)[id]
    else 0
  }

  /** Depth is measured by the unbounded climb, so it does not depend on the ranking chosen. */
  lemma DepthIsTheClimb(t: Tree, id: string, k: nat)
    requires Shallow(t) && (id == ROOT || id in t.nodes)
    ensures Climbs(Up(t.nodes), id, ROOT, k) <==> k == Depth(t, id)
  {
    if id in t.nodes {
      ClimbToRoot(Up(t.nodes), ROOT, MAX_DEPTH, RankOf(t), id);
      if Climbs(Up(t.nodes), id, ROOT, k) {
        ClimbMeasured(Up(t.nodes), ROOT, MAX_DEPTH, RankOf(t), id, ROOT, k);
      }
    }
  }

  /** Sibling order depends on the stored nodes alone. */
  lemma OrderFollowsNodes(t: Tree, t': Tree, p: string)
    requires Linked(t) && Linked(t') && t.nodes == t'.nodes && p in t.children && p in t'.children
    ensures t.children[p] == t'.children[p]
  {
    forall x
      ensures x in t.children[p] <==> x in t'.children[p]
    {
      SameMembers(t, t', p, x);
      SameMembers(t', t, p, x);
    }
    OneOrderlyListing(t.nodes, t.children[p], t'.children[p]);
  }

  lemma SameMembers(t: Tree, t': Tree, p: string, x: string)
    requires Linked(t) && Linked(t') && t.nodes == t'.nodes && p in t.children && p in t'.children
    ensures x in t.children[p] ==> x in t'.children[p]
  {
    if x in t.children[p] {
      var i :| 0 <= i < |t.children[p]| && t.children[p][i] == x;
      assert ListsItsOwn(Up(t.nodes), ROOT, t.children, p);
      assert ListedAtHome(Up(t.nodes), t'.children, x);
    }
  }

  // ----- transitions no plugin caused ------------------------------------------------------

  /** Every branch put into one state. */
  function Restated(t: Tree, state: string): Tree {
    t.(branches := map b | b in t.branches :: t.branches[b].(state := state))
  }

  predicate AllStale(t: Tree) {
    forall b :: b in t.branches ==> t.branches[b].state == STALE
  }

  predicate AlreadyFailed(b: Branch, message: string) { b.state == ERROR && b.error == message }

  function Failed(t: Tree, message: string): Tree {
    t.(branches := map b | b in t.branches ::
         if AlreadyFailed(t.branches[b], message) then t.branches[b]
         else t.branches[b].(state := ERROR, error := SanitizeText(message)))
  }

  function SetState(t: Tree, node: string, state: string): Tree {
    if node in t.branches then t.(branches := t.branches[node := t.branches[node].(state := state)]) else t
  }

  /** What MarkPluginFailed looks for before it reports a change. */
  predicate NothingToFail(t: Tree, message: string) {
    forall b :: b in t.branches ==> AlreadyFailed(t.branches[b], message)
  }
}
