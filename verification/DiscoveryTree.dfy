/**
 One plugin's tree as the program keeps it: three mutable maps, bounded walks
 up, a worklist walk down, and the loops of one publish
 (internal/usecase/discovery_tree.go and the private half of
 internal/usecase/discovery_store.go). Each loop is tied to the set-level
 meaning in Ancestry, Forest and TreePublish.
 */
module DiscoveryTree {
  import opened Basics
  import opened Discovery
  import opened SiblingOrder
  import opened Ancestry
  import opened Forest
  import opened TreePublish
  import opened PublishLaws

  function SetOf(ids: seq<string>): set<string> {
    set x | x in ids
  }

  lemma TreeKids(t: Tree, a: string)
    requires Linked(t)
    ensures IsListOfKids(Up(t.nodes), a, t.Kids(a))
  {
    var up := Up(t.nodes);
    if a in t.children {
      assert ListsItsOwn(up, ROOT, t.children, a);
    }
    forall c | c in up && up[c] == a
      ensures c in t.Kids(a)
    {
      assert ListedAtHome(up, t.children, c);
    }
  }

  class Plot {
    var nodes: map<string, Node>
    var children: map<string, seq<string>>
    var branches: map<string, Branch>

    ghost function View(): Tree
      reads this
    {
      Tree(nodes, children, branches)
    }

    ghost predicate Valid()
      reads this
    {
      IsForest(View())
    }

    constructor ()
      ensures Valid() && View() == EMPTY_TREE
    {
      nodes, children, branches := map[], map[], map[];
      new;
      EmptyIsForest();
    }

    /** The bounded walk up gives the true distance from the root: the bound is never met. */
    method DepthOf(nodeId: string) returns (depth: nat)
      requires Valid()
      ensures depth == Depth(View(), nodeId)
    {
      depth := 0;
      var current := nodeId;
      ghost var up, rank := Up(nodes), RankOf(View());
      while current != ROOT
        invariant nodeId !in nodes ==> depth == 0 && current == nodeId
        invariant nodeId in nodes ==> Climbs(up, nodeId, current, depth) && (current == ROOT || current in nodes)
        invariant depth <= MAX_DEPTH
        decreases MAX_DEPTH + 2 - depth
      {
        if current !in nodes {
          break;
        }
        assert RankFits(up, ROOT, MAX_DEPTH, rank, current) && RankFits(up, ROOT, MAX_DEPTH, rank, nodeId);
        ClimbMeasured(up, ROOT, MAX_DEPTH, rank, nodeId, current, depth);
        ClimbOneMore(up, nodeId, current, depth);
        depth := depth + 1;
        if depth > MAX_DEPTH + 1 {
          break;
        }
        current := nodes[current].parentId;
        assert RankFits(up, ROOT, MAX_DEPTH, rank, nodeId);
      }
      if nodeId in nodes {
        ClimbMeasured(up, ROOT, MAX_DEPTH, rank, nodeId, current, depth);
      }
    }

    /** The worklist walk ends and lists a node and each of its descendants exactly once. */
    method Subtree(nodeId: string) returns (collected: seq<string>)
      requires Valid() && nodeId in nodes
      ensures NoDup(collected) && SetOf(collected) == Below(Up(nodes), nodeId)
    {
      collected := [];
      var pending := [nodeId];
      ghost var up := Up(nodes);
      CoverOne(up, nodeId);
      while |pending| > 0
        invariant forall i :: 0 <= i < |pending| ==> pending[i] in up
        invariant Apart(up, pending)
        invariant NoDup(collected) && SetOf(collected) !! Cover(up, pending)
        invariant SetOf(collected) + Cover(up, pending) == Below(up, nodeId)
        decreases Cover(up, pending)
      {
        var current := pending[|pending| - 1];
        var rest := pending[..|pending| - 1];
        assert pending == rest + [current];
        var kids := if current in children then children[current] else [];
        TreeKids(View(), current);
        PopCovers(up, ROOT, MAX_DEPTH, RankOf(View()), rest, current, kids);
        assert SetOf(collected + [current]) == SetOf(collected) + {current};
        collected := collected + [current];
        pending := rest + kids;
      }
      assert Cover(up, pending) == {};
    }

    method Surviving(keeping: seq<Node>) returns (surviving: set<string>)
      ensures surviving == IdSet(keeping)
    {
      surviving := {};
      for i := 0 to |keeping|
        invariant surviving == IdSet(keeping[..i])
      {
        IdSetSnoc(keeping[..i + 1]);
        assert keeping[..i + 1][..i] == keeping[..i];
        surviving := surviving + {keeping[i].id};
      }
      assert keeping[..|keeping|] == keeping;
    }

    /** Exactly what the snapshot drops: the old children it does not list, each with its whole subtree. */
    method Vanishing(parentId: string, keeping: seq<Node>) returns (vanished: seq<string>)
      requires Valid()
      ensures NoDup(vanished) && SetOf(vanished) == Cut(Up(nodes), parentId, IdSet(keeping))
    {
      var surviving := Surviving(keeping);
      vanished := [];
      var kids := if parentId in children then children[parentId] else [];
      ghost var up := Up(nodes);
      TreeKids(View(), parentId);
      for i := 0 to |kids|
        invariant NoDup(vanished)
        invariant SetOf(vanished) == Dropped(up, kids[..i], surviving)
      {
        if kids[i] in surviving {
          DropNothing(up, kids, i, surviving);
          continue;
        }
        var below := Subtree(kids[i]);
        DropOne(View(), parentId, kids, i, surviving, vanished, below);
        vanished := vanished + below;
      }
      assert kids[..|kids|] == kids;
      DroppedIsCut(up, parentId, kids, surviving);
    }

    method RemoveVanished(parentId: string, keeping: seq<Node>) returns (removed: seq<string>)
      requires Valid()
      modifies this
      ensures NoDup(removed) && SetOf(removed) == Cut(Up(old(nodes)), parentId, IdSet(keeping))
      ensures nodes == old(nodes) - SetOf(removed)
      ensures children == old(children) - SetOf(removed) && branches == old(branches) - SetOf(removed)
    {
      removed := Vanishing(parentId, keeping);
      DeleteAll(removed);
    }

    method DeleteAll(ids: seq<string>)
      modifies this
      ensures nodes == old(nodes) - SetOf(ids)
      ensures children == old(children) - SetOf(ids) && branches == old(branches) - SetOf(ids)
    {
      for i := 0 to |ids|
        invariant nodes == old(nodes) - SetOf(ids[..i])
        invariant children == old(children) - SetOf(ids[..i])
        invariant branches == old(branches) - SetOf(ids[..i])
      {
        assert SetOf(ids[..i + 1]) == SetOf(ids[..i]) + {ids[i]};
        nodes := nodes - {ids[i]};
        children := children - {ids[i]};
        branches := branches - {ids[i]};
      }
      assert ids[..|ids|] == ids;
    }

    /** Truncation by listing length, by depth and by the node budget, and the record of what was cut. */
    method Admit(parentId: string, snapshot: seq<Node>) returns (admitted: seq<Node>, truncated: Option<Truncated>)
      requires Valid() && Distinct(snapshot)
      ensures admitted == Admitted(View(), parentId, snapshot)
      ensures truncated == Mark(View(), parentId, snapshot)
    {
      var depth := DepthOf(parentId);
      if depth + 1 > MAX_DEPTH {
        return [], Some(Truncated(0, |snapshot|));
      }
      var kept := Kept(snapshot);
      truncated := KeptMark(snapshot);
      var vanishing := Vanishing(parentId, kept);
      NoDupSize(vanishing);
      admitted := TakeWithin(kept, MAX_NODES_PER_PLUGIN - (|nodes| - |vanishing|));
      if |admitted| < |kept| {
        truncated := Some(Truncated(|admitted|, |snapshot|));
      }
    }

    /** Known children pass; new ones pass while the budget lasts, and the rest of the listing is still looked at. */
    method TakeWithin(kept: seq<Node>, room: int) returns (admitted: seq<Node>)
      ensures admitted == Select(nodes, kept, room)
    {
      var budget := room;
      admitted := [];
      for i := 0 to |kept|
        invariant admitted == Select(nodes, kept[..i], room)
        invariant budget == room - CountNew(nodes, admitted)
      {
        assert kept[..i + 1][..i] == kept[..i];
        if kept[i].id !in nodes {
          if budget <= 0 {
            continue;
          }
          budget := budget - 1;
        }
        assert (admitted + [kept[i]])[..|admitted|] == admitted;
        admitted := admitted + [kept[i]];
      }
      assert kept[..|kept|] == kept;
    }

    method Write(parentId: string, admitted: seq<Node>, branch: Branch)
      requires Distinct(admitted)
      modifies this
      ensures View() == Replaced(old(View()), parentId, {}, admitted, branch)
    {
      var ids: seq<string> := [];
      for i := 0 to |admitted|
        invariant nodes == Install(old(nodes), admitted[..i], parentId)
        invariant ids == Ids(admitted[..i])
        invariant children == old(children) && branches == old(branches)
      {
        assert admitted[..i + 1][..i] == admitted[..i];
        var node := SanitizeNode(admitted[i]).(parentId := parentId);
        nodes := nodes[node.id := node];
        ids := ids + [node.id];
      }
      assert admitted[..|admitted|] == admitted;
      assert old(nodes) - {} == old(nodes) && old(children) - {} == old(children) && old(branches) - {} == old(branches);
      InstalledNames(old(nodes), admitted, parentId);
      children := children[parentId := SortIds(nodes, ids)];
      branches := branches[parentId := branch];
    }

    /** Whether some listed child already lives under another parent. */
    method FindsMoved(parentId: string, snapshot: seq<Node>) returns (moved: bool)
      ensures moved <==> Moves(View(), parentId, snapshot)
    {
      for i := 0 to |snapshot|
        invariant forall j :: 0 <= j < i && snapshot[j].id in nodes ==> nodes[snapshot[j].id].parentId == parentId
      {
        if snapshot[i].id in nodes && nodes[snapshot[i].id].parentId != parentId {
          return true;
        }
      }
      return false;
    }

    /** The write half of a publish does to the maps what TreePublish.Merge says, and reports what left. */
    method MergeSnapshot(parentId: string, state: string, message: string, snapshot: seq<Node>)
      returns (removed: seq<string>, refusal: Option<Refusal>)
      requires Valid() && Plain(snapshot)
      modifies this
      ensures Valid()
      ensures Carries(old(View()), View(), Merge(old(View()), parentId, state, message, snapshot), removed, refusal)
    {
      ghost var before := View();
      if parentId != ROOT && parentId !in nodes {
        return [], None;
      }
      if parentId in nodes && nodes[parentId].kind == KIND_INSTANCE {
        return [], Some(LeafParent);
      }
      var moved := FindsMoved(parentId, snapshot);
      if moved {
        return [], Some(DuplicateNode);
      }
      PublishKeepsForest(before, parentId, state, message, snapshot);
      PublishFits(before, parentId, state, message, snapshot);
      var admitted, truncated := Admit(parentId, snapshot);
      removed := RemoveVanished(parentId, admitted);
      var branch := Branch(HostAccepted(state), SanitizeText(message), truncated);
      RemoveThenWrite(before, View(), parentId, SetOf(removed), admitted, branch);
      Write(parentId, admitted, branch);
      refusal := None;
    }

    method SetBranchState(node: string, state: string)
      modifies this`branches
      ensures View() == SetState(old(View()), node, state)
    {
      if node in branches {
        branches := branches[node := branches[node].(state := state)];
      }
    }

    /** Every branch goes stale; the answer says whether any was not. */
    method MarkStale() returns (changed: bool)
      modifies this`branches
      ensures View() == Restated(old(View()), STALE)
      ensures changed <==> !AllStale(old(View()))
    {
      changed := false;
      var todo := branches.Keys;
      while todo != {}
        invariant branches.Keys == old(branches).Keys && todo <= branches.Keys
        invariant forall b :: b in branches ==>
                    branches[b] == if b in todo then old(branches)[b] else old(branches)[b].(state := STALE)
        invariant changed <==> exists b :: b in old(branches) && b !in todo && old(branches)[b].state != STALE
        decreases todo
      {
        var b :| b in todo;
        todo := todo - {b};
        if branches[b].state == STALE {
          continue;
        }
        branches := branches[b := branches[b].(state := STALE)];
        changed := true;
      }
      assert branches == Restated(old(View()), STALE).branches;
    }

    /** Every branch fails with the message, unless it already shows exactly that. */
    method MarkFailed(message: string) returns (changed: bool)
      modifies this`branches
      ensures View() == Failed(old(View()), message)
      ensures changed <==> !NothingToFail(old(View()), message)
    {
      changed := false;
      var todo := branches.Keys;
      ghost var failed := Failed(old(View()), message).branches;
      while todo != {}
        invariant branches.Keys == old(branches).Keys && todo <= branches.Keys
        invariant forall b :: b in branches ==> branches[b] == if b in todo then old(branches)[b] else failed[b]
        invariant changed <==> exists b :: b in old(branches) && b !in todo && !AlreadyFailed(old(branches)[b], message)
        decreases todo
      {
        var b :| b in todo;
        todo := todo - {b};
        if branches[b].state == ERROR && branches[b].error == message {
          assert AlreadyFailed(old(branches)[b], message);
          continue;
        }
        assert !AlreadyFailed(old(branches)[b], message);
        branches := branches[b := branches[b].(state := ERROR, error := SanitizeText(message))];
        changed := true;
      }
      assert branches == failed;
    }
  }

  /** How an outcome shows: the tree it leaves, the ids it reports, the error it returns. */
  ghost predicate Carries(before: Tree, after: Tree, outcome: Outcome, removed: seq<string>, refusal: Option<Refusal>) {
    match outcome
    case Refused(reason) => after == before && removed == [] && refusal == Some(reason)
    case Ignored => after == before && removed == [] && refusal == None
    case Applied(tree, gone) => after == tree && NoDup(removed) && SetOf(removed) == gone && refusal == None
  }

  lemma RemoveThenWrite(t: Tree, t1: Tree, parent: string, gone: set<string>, admitted: seq<Node>, branch: Branch)
    requires Distinct(admitted)
    requires t1 == Tree(t.nodes - gone, t.children - gone, t.branches - gone)
    ensures Replaced(t1, parent, {}, admitted, branch) == Replaced(t, parent, gone, admitted, branch)
  {
    assert t1.nodes - {} == t.nodes - gone && t1.children - {} == t.children - gone && t1.branches - {} == t.branches - gone;
  }

  lemma DropNothing(up: map<string, string>, kids: seq<string>, i: nat, keep: set<string>)
    requires i < |kids| && kids[i] in keep
    ensures Dropped(up, kids[..i + 1], keep) == Dropped(up, kids[..i], keep)
  {
    DroppedSnoc(up, kids[..i], kids[i], keep);
    assert kids[..i + 1] == kids[..i] + [kids[i]];
  }

  lemma DropOne(t: Tree, parent: string, kids: seq<string>, i: nat, keep: set<string>, vanished: seq<string>, below: seq<string>)
    requires Shallow(t) && IsListOfKids(Up(t.nodes), parent, kids) && i < |kids| && kids[i] !in keep
    requires NoDup(vanished) && SetOf(vanished) == Dropped(Up(t.nodes), kids[..i], keep)
    requires NoDup(below) && SetOf(below) == Below(Up(t.nodes), kids[i])
    ensures NoDup(vanished + below) && SetOf(vanished + below) == Dropped(Up(t.nodes), kids[..i + 1], keep)
  {
    var up := Up(t.nodes);
    DroppedSnoc(up, kids[..i], kids[i], keep);
    assert kids[..i + 1] == kids[..i] + [kids[i]];
    KidsApart(up, ROOT, MAX_DEPTH, RankOf(t), parent, kids, i, keep);
    NoDupAppend(vanished, below);
  }

  lemma NoDupAppend(a: seq<string>, b: seq<string>)
    requires NoDup(a) && NoDup(b) && SetOf(a) !! SetOf(b)
    ensures NoDup(a + b) && SetOf(a + b) == SetOf(a) + SetOf(b)
  {
    forall i, j | 0 <= i < |a| && 0 <= j < |b|
      ensures a[i] != b[j]
    {
      assert a[i] in SetOf(a) && b[j] in SetOf(b);
    }
  }

  lemma {:induction false} NoDupSize(ids: seq<string>)
    requires NoDup(ids)
    ensures |SetOf(ids)| == |ids|
    decreases |ids|
  {
    if ids != [] {
      var n := |ids| - 1;
      NoDupSize(ids[..n]);
      assert SetOf(ids) == SetOf(ids[..n]) + {ids[n]};
    }
  }
}
