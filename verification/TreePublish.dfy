/**
 What publishing one snapshot means, stated on whole trees and sets: the old
 children the snapshot no longer lists go, each with everything below it; the
 listed ones that fit are stored under the parent; nothing else changes
 (internal/usecase/discovery_store.go, ApplySnapshot). The loops that do this
 are in DiscoveryTree.
 */
module TreePublish {
  import opened Basics
  import opened Discovery
  import opened SiblingOrder
  import opened Ancestry
  import opened Forest

  datatype Refusal = InvalidSnapshot | LeafParent | DuplicateNode

  datatype Outcome =
    | Refused(reason: Refusal)
    | Ignored                                  // the parent is not in the tree any more
    | Applied(tree: Tree, removed: set<string>)

  // ----- admission ----------------------------------------------------------------------

  /** Children already in the tree cost nothing; a new one is admitted while the budget lasts. */
  function Select(nodes: map<string, Node>, kept: seq<Node>, budget: int): seq<Node> {
    if kept == [] then []
    else
      var n := |kept| - 1;
      var before := Select(nodes, kept[..n], budget);
      if kept[n].id in nodes || CountNew(nodes, before) < budget then before + [kept[n]] else before
  }

  function CountNew(nodes: map<string, Node>, ns: seq<Node>): nat {
    if ns == [] then 0
    else CountNew(nodes, ns[..|ns| - 1]) + if ns[|ns| - 1].id in nodes then 0 else 1
  }

  /** Room left once the nodes this snapshot itself removes are gone. */
  ghost function Budget(t: Tree, parent: string, kept: seq<Node>): int {
    MAX_NODES_PER_PLUGIN - (|t.nodes| - |Cut(Up(t.nodes), parent, IdSet(kept))|)
  }

  ghost predicate TooDeep(t: Tree, parent: string)
    requires Shallow(t)
  {
    Depth(t, parent) + 1 > MAX_DEPTH
  }

  ghost function Admitted(t: Tree, parent: string, children: seq<Node>): seq<Node>
    requires Shallow(t)
  {
    if TooDeep(t, parent) then [] else Select(t.nodes, Kept(children), Budget(t, parent, Kept(children)))
  }

  ghost function Mark(t: Tree, parent: string, children: seq<Node>): Option<Truncated>
    requires Shallow(t)
  {
    var admitted := Admitted(t, parent, children);
    if TooDeep(t, parent) then Some(Truncated(0, |children|))
    else if |admitted| < |Kept(children)| then Some(Truncated(|admitted|, |children|))
    else KeptMark(children)
  }

  // ----- the write ------------------------------------------------------------------------

  function Stored(child: Node, parent: string): Node {
    SanitizeNode(child).(parentId := parent)
  }

  function Install(nodes: map<string, Node>, admitted: seq<Node>, parent: string): map<string, Node> {
    if admitted == [] then nodes
    else
      var n := |admitted| - 1;
      Install(nodes, admitted[..n], parent)[admitted[n].id := Stored(admitted[n], parent)]
  }

  /** The tree with gone taken out and the admitted children stored under parent. */
  function Replaced(t: Tree, parent: string, gone: set<string>, admitted: seq<Node>, branch: Branch): Tree
    requires Distinct(admitted)
  {
    var nodes := Install(t.nodes - gone, admitted, parent);
    InstalledNames(t.nodes - gone, admitted, parent);
    Tree(nodes,
         (t.children - gone)[parent := SortIds(nodes, Ids(admitted))],
         (t.branches - gone)[parent := branch])
  }

  ghost predicate Moves(t: Tree, parent: string, children: seq<Node>) {
    exists i :: 0 <= i < |children| && children[i].id in t.nodes && t.nodes[children[i].id].parentId != parent
  }

  /** What validation guarantees and the rest relies on: distinct ids, none of them the root's. */
  predicate Plain(children: seq<Node>) {
    Distinct(children) && forall i :: 0 <= i < |children| ==> children[i].id != ROOT
  }

  /** A validated snapshot meets one tree. */
  ghost function Merge(t: Tree, parent: string, state: string, message: string, children: seq<Node>): Outcome
    requires Shallow(t) && Plain(children)
  {
    if parent != ROOT && parent !in t.nodes then Ignored
    else if parent in t.nodes && t.nodes[parent].kind == KIND_INSTANCE then Refused(LeafParent)
    else if Moves(t, parent, children) then Refused(DuplicateNode)
    else
      var admitted := Admitted(t, parent, children);
      var gone := Cut(Up(t.nodes), parent, IdSet(admitted));
      SelectKeepsDistinct(t.nodes, Kept(children), Budget(t, parent, Kept(children)));
      Applied(Replaced(t, parent, gone, admitted, NewBranch(t, parent, state, message, children)), gone)
  }

  ghost function NewBranch(t: Tree, parent: string, state: string, message: string, children: seq<Node>): Branch
    requires Shallow(t)
  {
    Branch(HostAccepted(state), SanitizeText(message), Mark(t, parent, children))
  }

  lemma ValidIsPlain(children: seq<Node>)
    requires ValidSnapshot(children)
    ensures Plain(children)
  {
    ValidSnapshotMeans(children);
  }

  // ----- selection ---------------------------------------------------------------------------

  /** Selection spends no more than the budget, and drops a child only when it is spent. */
  lemma {:induction false} SelectIsPart(nodes: map<string, Node>, kept: seq<Node>, budget: nat)
    ensures var r := Select(nodes, kept, budget);
            && |r| <= |kept|
            && (|r| == |kept| ==> r == kept)
            && CountNew(nodes, r) <= budget
            && (|r| < |kept| ==> CountNew(nodes, r) == budget)
    decreases |kept|
  {
    if kept != [] {
      var n := |kept| - 1;
      SelectIsPart(nodes, kept[..n], budget);
      var before := Select(nodes, kept[..n], budget);
      assert (before + [kept[n]])[..|before|] == before;
      assert kept == kept[..n] + [kept[n]];
    }
  }

  lemma {:induction false} SelectMembers(nodes: map<string, Node>, kept: seq<Node>, budget: int, x: Node)
    ensures x in Select(nodes, kept, budget) ==> x in kept
    ensures x in kept && x.id in nodes ==> x in Select(nodes, kept, budget)
    decreases |kept|
  {
    if kept != [] {
      var n := |kept| - 1;
      SelectMembers(nodes, kept[..n], budget, x);
      assert kept == kept[..n] + [kept[n]];
    }
  }

  /** Where a selected node stood in the listing. */
  lemma SelectSource(nodes: map<string, Node>, kept: seq<Node>, budget: int, i: nat) returns (j: nat)
    requires i < |Select(nodes, kept, budget)|
    ensures j < |kept| && kept[j] == Select(nodes, kept, budget)[i]
  {
    var x := Select(nodes, kept, budget)[i];
    SelectMembers(nodes, kept, budget, x);
    j :| 0 <= j < |kept| && kept[j] == x;
  }

  lemma {:induction false} SelectKeepsDistinct(nodes: map<string, Node>, kept: seq<Node>, budget: int)
    ensures Distinct(kept) ==> Distinct(Select(nodes, kept, budget))
    decreases |kept|
  {
    if kept != [] && Distinct(kept) {
      var n := |kept| - 1;
      SelectKeepsDistinct(nodes, kept[..n], budget);
      forall i | 0 <= i < |Select(nodes, kept[..n], budget)|
        ensures Select(nodes, kept[..n], budget)[i].id != kept[n].id
      {
        var j := SelectSource(nodes, kept[..n], budget, i);
        assert kept[j] == kept[..n][j];
      }
    }
  }

  lemma InIdSet(ns: seq<Node>, x: string)
    ensures x in IdSet(ns) <==> x in Ids(ns)
    ensures x in IdSet(ns) <==> exists i :: 0 <= i < |ns| && ns[i].id == x
  {
    if x in IdSet(ns) {
      var i :| 0 <= i < |ns| && ns[i].id == x;
      assert Ids(ns)[i] == x;
    }
  }

  lemma OneMore<K>(x: K, s: set<K>, known: set<K>)
    requires x !in s
    ensures |(s + {x}) - known| == |s - known| + if x in known then 0 else 1
  {
    if x in known {
      assert (s + {x}) - known == s - known;
    } else {
      assert (s + {x}) - known == (s - known) + {x};
    }
  }

  lemma {:induction false} NewIdsCounted(nodes: map<string, Node>, ns: seq<Node>)
    requires Distinct(ns)
    ensures |IdSet(ns) - nodes.Keys| == CountNew(nodes, ns)
    decreases |ns|
  {
    if ns == [] {
      assert IdSet(ns) == {};
    } else {
      var n := |ns| - 1;
      NewIdsCounted(nodes, ns[..n]);
      IdSetSnoc(ns);
      InIdSet(ns[..n], ns[n].id);
      OneMore(ns[n].id, IdSet(ns[..n]), nodes.Keys);
    }
  }

  /** Cutting by what is admitted and cutting by what was listed is the same: only new nodes were dropped. */
  lemma BudgetIsExact(t: Tree, parent: string, kept: seq<Node>, budget: int)
    ensures Cut(Up(t.nodes), parent, IdSet(Select(t.nodes, kept, budget))) == Cut(Up(t.nodes), parent, IdSet(kept))
  {
    var admitted := Select(t.nodes, kept, budget);
    forall x | x in t.nodes
      ensures x in IdSet(admitted) <==> x in IdSet(kept)
    {
      if x in IdSet(admitted) {
        var i :| 0 <= i < |admitted| && admitted[i].id == x;
        var j := SelectSource(t.nodes, kept, budget, i);
      }
      if x in IdSet(kept) {
        var i :| 0 <= i < |kept| && kept[i].id == x;
        SelectMembers(t.nodes, kept, budget, kept[i]);
        var j :| 0 <= j < |admitted| && admitted[j] == kept[i];
      }
    }
    CutDependsOnOldChildren(Up(t.nodes), parent, IdSet(admitted), IdSet(kept));
  }

  // ----- the write ------------------------------------------------------------------------------

  lemma {:induction false} InstallKeys(nodes: map<string, Node>, admitted: seq<Node>, parent: string)
    ensures Install(nodes, admitted, parent).Keys == nodes.Keys + IdSet(admitted)
    decreases |admitted|
  {
    if admitted != [] {
      InstallKeys(nodes, admitted[..|admitted| - 1], parent);
      IdSetSnoc(admitted);
    }
  }

  lemma {:induction false} InstallAt(nodes: map<string, Node>, admitted: seq<Node>, parent: string, i: nat)
    requires Distinct(admitted) && i < |admitted|
    ensures var r := Install(nodes, admitted, parent);
            admitted[i].id in r && r[admitted[i].id] == Stored(admitted[i], parent)
    decreases |admitted|
  {
    if i < |admitted| - 1 {
      InstallAt(nodes, admitted[..|admitted| - 1], parent, i);
    }
  }

  lemma {:induction false} InstallElsewhere(nodes: map<string, Node>, admitted: seq<Node>, parent: string, x: string)
    requires x in nodes && x !in IdSet(admitted)
    ensures var r := Install(nodes, admitted, parent);
            x in r && r[x] == nodes[x]
    decreases |admitted|
  {
    if admitted != [] {
      IdSetSnoc(admitted);
      InstallElsewhere(nodes, admitted[..|admitted| - 1], parent, x);
    }
  }

  lemma InstalledNames(nodes: map<string, Node>, admitted: seq<Node>, parent: string)
    requires Distinct(admitted)
    ensures Named(Install(nodes, admitted, parent), Ids(admitted))
  {
    forall i | 0 <= i < |admitted|
      ensures var r := Install(nodes, admitted, parent);
              admitted[i].id in r && r[admitted[i].id].id == admitted[i].id
    {
      InstallAt(nodes, admitted, parent, i);
    }
  }

  /** The admitted children can be hung below parent once gone is out. */
  ghost predicate Grafts(t: Tree, parent: string, gone: set<string>, admitted: seq<Node>) {
    && (parent == ROOT || parent in t.nodes)
    && Distinct(admitted)
    && CleanCut(Up(t.nodes), parent, IdSet(admitted), gone)
    && forall x :: x in IdSet(admitted) && x in t.nodes ==> t.nodes[x].parentId == parent
  }

  /** What the checks before the write guarantee. */
  ghost predicate Fitting(t: Tree, parent: string, gone: set<string>, admitted: seq<Node>)
    requires Shallow(t)
  {
    && Grafts(t, parent, gone, admitted)
    && ROOT !in IdSet(admitted)
    && |t.nodes| - |gone| + CountNew(t.nodes, admitted) <= MAX_NODES_PER_PLUGIN
    && (admitted != [] ==> !TooDeep(t, parent))
  }

  lemma InstallRegrafts(nodes: map<string, Node>, parent: string, gone: set<string>, admitted: seq<Node>)
    requires Distinct(admitted)
    requires gone !! IdSet(admitted)
    requires forall x :: x in IdSet(admitted) && x in nodes ==> nodes[x].parentId == parent
    ensures Regrafted(Up(nodes), Up(Install(nodes - gone, admitted, parent)), parent, IdSet(admitted), gone)
    ensures forall x :: x in nodes && x !in gone && x !in IdSet(admitted) ==>
              x in Install(nodes - gone, admitted, parent) && Install(nodes - gone, admitted, parent)[x] == nodes[x]
  {
    var keep := IdSet(admitted);
    var nodes' := Install(nodes - gone, admitted, parent);
    InstallKeys(nodes - gone, admitted, parent);
    assert nodes'.Keys == (nodes.Keys - gone) + keep;
    forall x | x in keep
      ensures nodes'[x].parentId == parent
    {
      InIdSet(admitted, x);
      var i :| 0 <= i < |admitted| && admitted[i].id == x;
      InstallAt(nodes - gone, admitted, parent, i);
    }
    forall x | x in nodes && x !in gone && x !in keep
      ensures nodes'[x] == nodes[x]
    {
      InstallElsewhere(nodes - gone, admitted, parent, x);
    }
  }

  lemma SortedAdmitted(nodes: map<string, Node>, admitted: seq<Node>, parent: string)
    requires Distinct(admitted)
    ensures var r := Install(nodes, admitted, parent);
            && Named(r, Ids(admitted))
            && InOrder(r, SortIds(r, Ids(admitted)))
            && forall x :: x in SortIds(r, Ids(admitted)) <==> x in IdSet(admitted)
  {
    assert NoDup(Ids(admitted));
    InstalledNames(nodes, admitted, parent);
    SortedInOrder(Install(nodes, admitted, parent), Ids(admitted));
    forall x ensures x in Ids(admitted) <==> x in IdSet(admitted) { InIdSet(admitted, x); }
  }

  lemma SwapSize<K>(before: set<K>, gone: set<K>, keep: set<K>)
    requires gone <= before && gone !! keep
    ensures |(before - gone) + keep| == |before| - |gone| + |keep - before|
    ensures before - ((before - gone) + keep) == gone
  {
    assert (before - gone) + keep == (before - gone) + (keep - before);
    assert before == (before - gone) + gone;
  }

  lemma ReplacedSize(t: Tree, parent: string, gone: set<string>, admitted: seq<Node>, branch: Branch)
    requires Distinct(admitted) && gone <= t.nodes.Keys && gone !! IdSet(admitted)
    ensures var t' := Replaced(t, parent, gone, admitted, branch);
            && |t'.nodes| == |t.nodes| - |gone| + CountNew(t.nodes, admitted)
            && t.nodes.Keys - t'.nodes.Keys == gone
  {
    InstallKeys(t.nodes - gone, admitted, parent);
    NewIdsCounted(t.nodes, admitted);
    SwapSize(t.nodes.Keys, gone, IdSet(admitted));
    assert (t.nodes - gone).Keys == t.nodes.Keys - gone;
  }

  /** Each branch other than the replaced one still lists live nodes in order. */
  lemma OtherBranchStands(t: Tree, nodes': map<string, Node>, parent: string, gone: set<string>, keep: set<string>, p: string)
    requires Linked(t) && CleanCut(Up(t.nodes), parent, keep, gone)
    requires forall x :: x in keep && x in t.nodes ==> t.nodes[x].parentId == parent
    requires forall x :: x in t.nodes && x !in gone && x !in keep ==> x in nodes' && nodes'[x] == t.nodes[x]
    requires p in t.children && p !in gone && p != parent
    ensures InOrder(nodes', t.children[p])
  {
    var up := Up(t.nodes);
    assert ListsItsOwn(up, ROOT, t.children, p);
    forall i | 0 <= i < |t.children[p]|
      ensures t.children[p][i] in t.nodes && t.children[p][i] in nodes' && nodes'[t.children[p][i]] == t.nodes[t.children[p][i]]
    {
      var x := t.children[p][i];
      assert x in up && up[x] == p;
      assert x !in gone && x !in keep;
    }
  }

  lemma ReplacedNames(t: Tree, parent: string, gone: set<string>, admitted: seq<Node>)
    requires Linked(t) && Distinct(admitted) && gone !! IdSet(admitted)
    ensures forall x :: x in Install(t.nodes - gone, admitted, parent) ==>
              Install(t.nodes - gone, admitted, parent)[x].id == x
  {
    InstallKeys(t.nodes - gone, admitted, parent);
    forall x | x in Install(t.nodes - gone, admitted, parent)
      ensures Install(t.nodes - gone, admitted, parent)[x].id == x
    {
      if x in IdSet(admitted) {
        var i :| 0 <= i < |admitted| && admitted[i].id == x;
        InstallAt(t.nodes - gone, admitted, parent, i);
      } else {
        InstallElsewhere(t.nodes - gone, admitted, parent, x);
      }
    }
  }

  lemma ReplacedChildren(t: Tree, parent: string, gone: set<string>, admitted: seq<Node>, branch: Branch)
    requires Distinct(admitted)
    ensures var t' := Replaced(t, parent, gone, admitted, branch);
            && t'.children.Keys == (t.children.Keys - gone) + {parent}
            && (forall x :: x in t'.children[parent] <==> x in IdSet(admitted))
            && (forall p :: p in t'.children && p != parent ==> t'.children[p] == t.children[p])
  {
    SortedAdmitted(t.nodes - gone, admitted, parent);
  }

  lemma ReplacedIsListed(t: Tree, parent: string, gone: set<string>, admitted: seq<Node>, branch: Branch)
    requires Linked(t) && Grafts(t, parent, gone, admitted)
    ensures var t' := Replaced(t, parent, gone, admitted, branch);
            Listed(Up(t'.nodes), ROOT, t'.children)
  {
    var t' := Replaced(t, parent, gone, admitted, branch);
    InstallRegrafts(t.nodes, parent, gone, admitted);
    ReplacedChildren(t, parent, gone, admitted, branch);
    RegraftedIsListed(Up(t.nodes), Up(t'.nodes), ROOT, t.children, t'.children, parent, IdSet(admitted), gone);
  }

  lemma ReplacedInOrder(t: Tree, parent: string, gone: set<string>, admitted: seq<Node>, branch: Branch, p: string)
    requires Linked(t) && Grafts(t, parent, gone, admitted)
    requires p in Replaced(t, parent, gone, admitted, branch).children
    ensures var t' := Replaced(t, parent, gone, admitted, branch);
            InOrder(t'.nodes, t'.children[p])
  {
    if p == parent {
      SortedAdmitted(t.nodes - gone, admitted, parent);
    } else {
      InstallRegrafts(t.nodes, parent, gone, admitted);
      OtherBranchStands(t, Install(t.nodes - gone, admitted, parent), parent, gone, IdSet(admitted), p);
    }
  }

  lemma ReplacedIsLinked(t: Tree, parent: string, gone: set<string>, admitted: seq<Node>, branch: Branch)
    requires Linked(t) && Grafts(t, parent, gone, admitted)
    ensures Linked(Replaced(t, parent, gone, admitted, branch))
  {
    var t' := Replaced(t, parent, gone, admitted, branch);
    ReplacedIsListed(t, parent, gone, admitted, branch);
    ReplacedNames(t, parent, gone, admitted);
    forall p | p in t'.children
      ensures InOrder(t'.nodes, t'.children[p])
    {
      ReplacedInOrder(t, parent, gone, admitted, branch, p);
    }
    assert t'.branches.Keys == t'.children.Keys;
  }

  lemma ReplacedIsShallow(t: Tree, parent: string, gone: set<string>, admitted: seq<Node>, branch: Branch)
    requires IsForest(t) && Fitting(t, parent, gone, admitted)
    ensures Shallow(Replaced(t, parent, gone, admitted, branch))
  {
    InstallRegrafts(t.nodes, parent, gone, admitted);
    if admitted == [] {
      assert IdSet(admitted) == {};
    }
    var rank' := RegraftedIsRanked(Up(t.nodes), Up(Install(t.nodes - gone, admitted, parent)), ROOT, MAX_DEPTH, RankOf(t),
                                   parent, IdSet(admitted), gone);
  }

  lemma ReplacedIsForest(t: Tree, parent: string, gone: set<string>, admitted: seq<Node>, branch: Branch)
    requires IsForest(t) && Fitting(t, parent, gone, admitted)
    ensures IsForest(Replaced(t, parent, gone, admitted, branch))
  {
    ReplacedIsShallow(t, parent, gone, admitted, branch);
    ReplacedIsLinked(t, parent, gone, admitted, branch);
    ReplacedSize(t, parent, gone, admitted, branch);
  }
}
