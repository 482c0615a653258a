/**
 What holds of every published snapshot: the tree stays a forest within its
 limits, exactly the reported nodes disappear, everything outside the published
 branch stands, and publishing the same snapshot again changes nothing.
 */
module PublishLaws {
  import opened Discovery
  import opened Ancestry
  import opened Forest
  import opened TreePublish

  lemma PublishFits(t: Tree, parent: string, state: string, message: string, children: seq<Node>)
    requires IsForest(t) && Plain(children) && Merge(t, parent, state, message, children).Applied?
    ensures var admitted := Admitted(t, parent, children);
            Fitting(t, parent, Cut(Up(t.nodes), parent, IdSet(admitted)), admitted)
  {
    var kept, admitted := Kept(children), Admitted(t, parent, children);
    var budget := Budget(t, parent, kept);
    SelectKeepsDistinct(t.nodes, kept, budget);
    forall x | x in IdSet(admitted)
      ensures x != ROOT && (x in t.nodes ==> t.nodes[x].parentId == parent)
    {
      var i :| 0 <= i < |admitted| && admitted[i].id == x;
      var j := SelectSource(t.nodes, kept, budget, i);
      assert kept[j] == children[j];
    }
    CutIsClean(Up(t.nodes), ROOT, MAX_DEPTH, RankOf(t), parent, IdSet(admitted));
    if TooDeep(t, parent) {
    } else {
      BudgetIsExact(t, parent, kept, budget);
      SelectIsPart(t.nodes, kept, budget);
    }
  }

  /** Every accepted snapshot leaves a forest: linked, acyclic, within depth and node budget. */
  lemma PublishKeepsForest(t: Tree, parent: string, state: string, message: string, children: seq<Node>)
    requires IsForest(t) && Plain(children) && Merge(t, parent, state, message, children).Applied?
    ensures IsForest(Merge(t, parent, state, message, children).tree)
  {
    var admitted := Admitted(t, parent, children);
    PublishFits(t, parent, state, message, children);
    ReplacedIsForest(t, parent, Cut(Up(t.nodes), parent, IdSet(admitted)), admitted,
                     NewBranch(t, parent, state, message, children));
  }

  ghost predicate NodesReplaced(t: Tree, t': Tree, parent: string, gone: set<string>, keep: set<string>) {
    && t'.nodes.Keys == (t.nodes.Keys - gone) + keep
    && (forall x :: x in t.nodes && x !in gone && x !in keep ==> t'.nodes[x] == t.nodes[x])
    && (forall x :: x in keep ==> t'.nodes[x].parentId == parent)
    && t.nodes.Keys - t'.nodes.Keys == gone
  }

  ghost predicate BranchReplaced(t: Tree, t': Tree, parent: string, gone: set<string>, branch: Branch) {
    && t'.children.Keys == t'.branches.Keys == (t.children.Keys - gone) + {parent}
    && t'.branches[parent] == branch
    && (forall p :: p in t.children && p != parent && p !in gone ==> t'.children[p] == t.children[p])
    && (forall p :: p in t.children && p in t.branches && p != parent && p !in gone ==> t'.branches[p] == t.branches[p])
  }

  lemma ReplacedNodes(t: Tree, parent: string, gone: set<string>, admitted: seq<Node>, branch: Branch)
    requires Grafts(t, parent, gone, admitted)
    ensures NodesReplaced(t, Replaced(t, parent, gone, admitted, branch), parent, gone, IdSet(admitted))
  {
    InstallRegrafts(t.nodes, parent, gone, admitted);
    var nodes' := Install(t.nodes - gone, admitted, parent);
    assert Up(nodes').Keys == nodes'.Keys;
    forall x | x in IdSet(admitted)
      ensures nodes'[x].parentId == parent
    {
      assert Up(nodes')[x] == parent;
    }
  }

  lemma ReplacedBranches(t: Tree, parent: string, gone: set<string>, admitted: seq<Node>, branch: Branch)
    requires t.children.Keys == t.branches.Keys && Distinct(admitted)
    ensures BranchReplaced(t, Replaced(t, parent, gone, admitted, branch), parent, gone, branch)
  {
  }

  lemma ReplacedStands(t: Tree, t': Tree, parent: string, gone: set<string>, admitted: seq<Node>, branch: Branch)
    requires IsForest(t) && Fitting(t, parent, gone, admitted)
    requires t' == Replaced(t, parent, gone, admitted, branch)
    ensures NodesReplaced(t, t', parent, gone, IdSet(admitted)) && BranchReplaced(t, t', parent, gone, branch)
  {
    ReplacedNodes(t, parent, gone, admitted, branch);
    ReplacedBranches(t, parent, gone, admitted, branch);
  }

  /** What is removed is the children the snapshot no longer lists, with everything below them; none is lost to the budget. */
  lemma RemovedIsWhatWasDropped(t: Tree, parent: string, state: string, message: string, children: seq<Node>)
    requires IsForest(t) && Plain(children) && Merge(t, parent, state, message, children).Applied?
    ensures Merge(t, parent, state, message, children).removed
            == Cut(Up(t.nodes), parent, if TooDeep(t, parent) then {} else IdSet(Kept(children)))
  {
    if TooDeep(t, parent) {
      assert IdSet(Admitted(t, parent, children)) == {};
    } else {
      BudgetIsExact(t, parent, Kept(children), Budget(t, parent, Kept(children)));
    }
  }

  /**
   Exactly the reported ids left the tree, and nothing outside the published
   branch changes: not a node, not a listing, not a branch state.
   */
  lemma RestOfTreeStands(t: Tree, parent: string, state: string, message: string, children: seq<Node>)
    requires IsForest(t) && Plain(children) && Merge(t, parent, state, message, children).Applied?
    ensures var out := Merge(t, parent, state, message, children);
            && NodesReplaced(t, out.tree, parent, out.removed, IdSet(Admitted(t, parent, children)))
            && BranchReplaced(t, out.tree, parent, out.removed, NewBranch(t, parent, state, message, children))
  {
    var out := Merge(t, parent, state, message, children);
    PublishFits(t, parent, state, message, children);
    ReplacedStands(t, out.tree, parent, out.removed, Admitted(t, parent, children),
                   NewBranch(t, parent, state, message, children));
  }

  /** A publish brings no other branch into being and changes the state of none. */
  lemma OtherBranchKept(t: Tree, parent: string, state: string, message: string, children: seq<Node>, p: string)
    requires Shallow(t) && Plain(children) && Merge(t, parent, state, message, children).Applied? && p != parent
    ensures var t' := Merge(t, parent, state, message, children).tree;
            p in t'.branches ==> p in t.branches && t'.branches[p] == t.branches[p]
  {
  }

  // ----- publishing the same snapshot twice ------------------------------------------------

  function Filter(ns: seq<Node>, keep: set<string>): seq<Node> {
    if ns == [] then []
    else
      var n := |ns| - 1;
      Filter(ns[..n], keep) + if ns[n].id in keep then [ns[n]] else []
  }

  lemma {:induction false} FilterSame(ns: seq<Node>, a: set<string>, b: set<string>)
    requires forall i :: 0 <= i < |ns| ==> (ns[i].id in a <==> ns[i].id in b)
    ensures Filter(ns, a) == Filter(ns, b)
    decreases |ns|
  {
    if ns != [] {
      FilterSame(ns[..|ns| - 1], a, b);
    }
  }

  /** A selection is determined by which ids were selected. */
  lemma {:induction false} SelectIsFilter(nodes: map<string, Node>, kept: seq<Node>, budget: int)
    requires Distinct(kept)
    ensures Select(nodes, kept, budget) == Filter(kept, IdSet(Select(nodes, kept, budget)))
    decreases |kept|
  {
    if kept != [] {
      var n := |kept| - 1;
      SelectIsFilter(nodes, kept[..n], budget);
      var before, all := Select(nodes, kept[..n], budget), Select(nodes, kept, budget);
      if kept[n].id in IdSet(before) {
        var i :| 0 <= i < |before| && before[i].id == kept[n].id;
        var j := SelectSource(nodes, kept[..n], budget, i);
        assert false;
      }
      if |all| > |before| {
        IdSetSnoc(all);
        assert all[..|all| - 1] == before;
      }
      FilterSame(kept[..n], IdSet(before), IdSet(all));
    }
  }

  /** With no budget, or nothing new listed, a selection is what is there already. */
  lemma {:induction false} SelectPresent(nodes: map<string, Node>, kept: seq<Node>, budget: int)
    requires budget == 0 || forall i :: 0 <= i < |kept| ==> kept[i].id in nodes
    ensures Select(nodes, kept, budget) == Filter(kept, nodes.Keys)
    decreases |kept|
  {
    if kept != [] {
      SelectPresent(nodes, kept[..|kept| - 1], budget);
    }
  }

  lemma {:induction false} InstallAgain(nodes: map<string, Node>, admitted: seq<Node>, parent: string)
    requires forall i :: 0 <= i < |admitted| ==> admitted[i].id in nodes && nodes[admitted[i].id] == Stored(admitted[i], parent)
    ensures Install(nodes, admitted, parent) == nodes
    decreases |admitted|
  {
    if admitted != [] {
      InstallAgain(nodes, admitted[..|admitted| - 1], parent);
    }
  }

  lemma ParentIsNotListed(t: Tree, parent: string, keep: set<string>)
    requires Shallow(t) && ROOT !in keep && (parent == ROOT || parent in t.nodes)
    requires forall x :: x in keep && x in t.nodes ==> t.nodes[x].parentId == parent
    ensures parent !in keep
  {
    if parent in t.nodes {
      assert RankFits(Up(t.nodes), ROOT, MAX_DEPTH, RankOf(t), parent);
    }
  }

  /** The published parent keeps its node and its depth, and its children are the admitted ones. */
  ghost predicate Settled(t: Tree, t': Tree, parent: string, keep: set<string>) {
    && Shallow(t) && IsForest(t')
    && Depth(t', parent) == Depth(t, parent)
    && (parent == ROOT || parent in t'.nodes)
    && (parent in t'.nodes ==> parent in t.nodes && t'.nodes[parent] == t.nodes[parent])
    && Cut(Up(t'.nodes), parent, keep) == {}
  }

  lemma ReplacedSettles(t: Tree, parent: string, gone: set<string>, admitted: seq<Node>, branch: Branch)
    requires IsForest(t) && Fitting(t, parent, gone, admitted)
    ensures Settled(t, Replaced(t, parent, gone, admitted, branch), parent, IdSet(admitted))
  {
    var t' := Replaced(t, parent, gone, admitted, branch);
    var keep := IdSet(admitted);
    ReplacedIsForest(t, parent, gone, admitted, branch);
    ReplacedNodes(t, parent, gone, admitted, branch);
    ParentIsNotListed(t, parent, keep);
    InstallRegrafts(t.nodes, parent, gone, admitted);
    DepthIsTheClimb(t, parent, Depth(t, parent));
    PathsStand(Up(t.nodes), Up(t'.nodes), parent, keep, gone, parent, ROOT, Depth(t, parent));
    DepthIsTheClimb(t', parent, Depth(t, parent));
    forall c | c in Up(t'.nodes) && Up(t'.nodes)[c] == parent
      ensures c in keep
    {
      assert c in t'.nodes && t'.nodes[c].parentId == parent;
    }
  }

  /** Of the listed children, exactly the admitted ones are there afterwards. */
  lemma PresentIsAdmitted(t: Tree, t': Tree, parent: string, gone: set<string>, kept: seq<Node>, budget: int, i: nat)
    requires i < |kept|
    requires t'.nodes.Keys == (t.nodes.Keys - gone) + IdSet(Select(t.nodes, kept, budget))
    ensures kept[i].id in t'.nodes <==> kept[i].id in IdSet(Select(t.nodes, kept, budget))
  {
    var admitted := Select(t.nodes, kept, budget);
    if kept[i].id in t.nodes {
      SelectMembers(t.nodes, kept, budget, kept[i]);
      var j :| 0 <= j < |admitted| && admitted[j] == kept[i];
    }
  }

  lemma ListedIsInSet(ns: seq<Node>)
    ensures forall i :: 0 <= i < |ns| ==> ns[i].id in IdSet(ns)
  {
  }

  lemma SecondSelection(
    t: Tree, t': Tree, parent: string, gone: set<string>, kept: seq<Node>, budget: int, budget': int, admitted: seq<Node>)
    requires Distinct(kept) && budget >= 0 && admitted == Select(t.nodes, kept, budget)
    requires t'.nodes.Keys == (t.nodes.Keys - gone) + IdSet(admitted)
    requires |t'.nodes| == MAX_NODES_PER_PLUGIN - budget + CountNew(t.nodes, admitted)
    requires budget' == MAX_NODES_PER_PLUGIN - |t'.nodes|
    ensures Select(t'.nodes, kept, budget') == admitted
  {
    SelectIsPart(t.nodes, kept, budget);
    forall i | 0 <= i < |kept|
      ensures kept[i].id in t'.nodes <==> kept[i].id in IdSet(admitted)
    {
      PresentIsAdmitted(t, t', parent, gone, kept, budget, i);
    }
    if |admitted| == |kept| {
      ListedIsInSet(kept);
    }
    SelectPresent(t'.nodes, kept, budget');
    FilterSame(kept, IdSet(admitted), t'.nodes.Keys);
    SelectIsFilter(t.nodes, kept, budget);
  }

  lemma SecondBudget(t: Tree, parent: string, kept: seq<Node>, gone: set<string>, budget: int, branch: Branch)
    requires budget == Budget(t, parent, kept) && gone == Cut(Up(t.nodes), parent, IdSet(kept)) && Distinct(kept)
    requires Distinct(Select(t.nodes, kept, budget)) && gone !! IdSet(Select(t.nodes, kept, budget))
    requires var t' := Replaced(t, parent, gone, Select(t.nodes, kept, budget), branch);
             Cut(Up(t'.nodes), parent, IdSet(Select(t.nodes, kept, budget))) == {}
    ensures var admitted := Select(t.nodes, kept, budget);
            var t' := Replaced(t, parent, gone, admitted, branch);
            && |t'.nodes| == MAX_NODES_PER_PLUGIN - budget + CountNew(t.nodes, admitted)
            && Budget(t', parent, kept) == MAX_NODES_PER_PLUGIN - |t'.nodes|
            && t'.nodes.Keys == (t.nodes.Keys - gone) + IdSet(admitted)
  {
    var admitted := Select(t.nodes, kept, budget);
    var t' := Replaced(t, parent, gone, admitted, branch);
    ReplacedSize(t, parent, gone, admitted, branch);
    InstallKeys(t.nodes - gone, admitted, parent);
    SelectSubset(t.nodes, kept, budget);
    SubsetCut(t', parent, IdSet(admitted), IdSet(kept));
  }

  /** The second time the same children are selected: the budget is what the first time left. */
  lemma SelectedAgain(t: Tree, t': Tree, parent: string, kept: seq<Node>, gone: set<string>, branch: Branch, admitted: seq<Node>)
    requires Distinct(kept) && Distinct(admitted) && gone !! IdSet(admitted)
    requires admitted == Select(t.nodes, kept, Budget(t, parent, kept)) && Budget(t, parent, kept) >= 0
    requires gone == Cut(Up(t.nodes), parent, IdSet(admitted))
    requires t' == Replaced(t, parent, gone, admitted, branch) && Cut(Up(t'.nodes), parent, IdSet(admitted)) == {}
    ensures Select(t'.nodes, kept, Budget(t', parent, kept)) == admitted
  {
    var budget := Budget(t, parent, kept);
    BudgetIsExact(t, parent, kept, budget);
    SecondBudget(t, parent, kept, gone, budget, branch);
    SecondSelection(t, t', parent, gone, kept, budget, Budget(t', parent, kept), admitted);
  }

  lemma BudgetIsThere(t: Tree, parent: string, kept: seq<Node>)
    requires |t.nodes| <= MAX_NODES_PER_PLUGIN
    ensures Budget(t, parent, kept) >= 0
  {
  }

  lemma SecondAdmission(t: Tree, parent: string, children: seq<Node>, gone: set<string>, branch: Branch)
    requires IsForest(t) && Distinct(Kept(children)) && !TooDeep(t, parent)
    requires gone == Cut(Up(t.nodes), parent, IdSet(Admitted(t, parent, children)))
    requires Fitting(t, parent, gone, Admitted(t, parent, children))
    requires Settled(t, Replaced(t, parent, gone, Admitted(t, parent, children), branch), parent, IdSet(Admitted(t, parent, children)))
    ensures Admitted(Replaced(t, parent, gone, Admitted(t, parent, children), branch), parent, children)
            == Admitted(t, parent, children)
  {
    var admitted := Admitted(t, parent, children);
    BudgetIsThere(t, parent, Kept(children));
    SelectedAgain(t, Replaced(t, parent, gone, admitted, branch), parent, Kept(children), gone, branch, admitted);
  }

  lemma StillNoMoves(t: Tree, parent: string, gone: set<string>, admitted: seq<Node>, branch: Branch, children: seq<Node>)
    requires Linked(t) && Grafts(t, parent, gone, admitted) && !Moves(t, parent, children)
    ensures !Moves(Replaced(t, parent, gone, admitted, branch), parent, children)
  {
    ReplacedNodes(t, parent, gone, admitted, branch);
  }

  lemma SubsetCut(t: Tree, parent: string, keep: set<string>, more: set<string>)
    requires Cut(Up(t.nodes), parent, keep) == {}
    ensures keep <= more ==> Cut(Up(t.nodes), parent, more) == {}
  {
    if keep <= more {
      forall x | x in Cut(Up(t.nodes), parent, more)
        ensures x in Cut(Up(t.nodes), parent, keep)
      {
      }
    }
  }

  lemma SelectSubset(nodes: map<string, Node>, kept: seq<Node>, budget: int)
    ensures IdSet(Select(nodes, kept, budget)) <= IdSet(kept)
  {
    var r := Select(nodes, kept, budget);
    forall x | x in IdSet(r)
      ensures x in IdSet(kept)
    {
      var i :| 0 <= i < |r| && r[i].id == x;
      var j := SelectSource(nodes, kept, budget, i);
    }
  }

  /** A snapshot whose every effect is already in place changes nothing. */
  lemma NothingToDo(
    t: Tree, once: Tree, parent: string, state: string, message: string, children: seq<Node>, admitted: seq<Node>, branch: Branch)
    requires Settled(t, once, parent, IdSet(admitted)) && Plain(children) && Distinct(admitted)
    requires parent in t.nodes ==> t.nodes[parent].kind != KIND_INSTANCE
    requires Admitted(t, parent, children) == Admitted(once, parent, children) == admitted
    requires !Moves(once, parent, children)
    requires branch == NewBranch(t, parent, state, message, children) && Replaced(once, parent, {}, admitted, branch) == once
    ensures Merge(once, parent, state, message, children) == Applied(once, {})
  {
  }

  lemma AdmissionRepeats(t: Tree, parent: string, children: seq<Node>, gone: set<string>, branch: Branch)
    requires IsForest(t) && Distinct(Kept(children))
    requires gone == Cut(Up(t.nodes), parent, IdSet(Admitted(t, parent, children)))
    requires Fitting(t, parent, gone, Admitted(t, parent, children))
    ensures var once := Replaced(t, parent, gone, Admitted(t, parent, children), branch);
            && Settled(t, once, parent, IdSet(Admitted(t, parent, children)))
            && Admitted(once, parent, children) == Admitted(t, parent, children)
  {
    ReplacedSettles(t, parent, gone, Admitted(t, parent, children), branch);
    if !TooDeep(t, parent) {
      SecondAdmission(t, parent, children, gone, branch);
    }
  }

  /**
   Snapshots are levels: publishing the same one again is accepted, removes
   nothing and leaves the same tree, even when the first was truncated or ran
   out of budget.
   */
  lemma PublishTwiceIsOnce(t: Tree, parent: string, state: string, message: string, children: seq<Node>)
    requires IsForest(t) && Plain(children) && Merge(t, parent, state, message, children).Applied?
    ensures var once := Merge(t, parent, state, message, children).tree;
            && IsForest(once)
            && Merge(once, parent, state, message, children) == Applied(once, {})
  {
    var admitted := Admitted(t, parent, children);
    var gone := Cut(Up(t.nodes), parent, IdSet(admitted));
    var branch := NewBranch(t, parent, state, message, children);
    PublishFits(t, parent, state, message, children);
    AdmissionRepeats(t, parent, children, gone, branch);
    StillNoMoves(t, parent, gone, admitted, branch, children);
    WriteTwice(t, parent, gone, admitted, branch);
    NothingToDo(t, Replaced(t, parent, gone, admitted, branch), parent, state, message, children, admitted, branch);
  }

  lemma WriteTwice(t: Tree, parent: string, gone: set<string>, admitted: seq<Node>, branch: Branch)
    requires Distinct(admitted)
    ensures var once := Replaced(t, parent, gone, admitted, branch);
            Replaced(once, parent, {}, admitted, branch) == once
  {
    var once := Replaced(t, parent, gone, admitted, branch);
    forall i | 0 <= i < |admitted|
      ensures admitted[i].id in once.nodes && once.nodes[admitted[i].id] == Stored(admitted[i], parent)
    {
      InstallAt(t.nodes - gone, admitted, parent, i);
    }
    assert once.nodes - {} == once.nodes && once.children - {} == once.children && once.branches - {} == once.branches;
    InstallAgain(once.nodes, admitted, parent);
  }
}
