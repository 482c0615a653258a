/**
 Deciding, from the tree the host holds, whether an action may be sent to a
 plugin at all (internal/usecase/discovery_invoke.go).
 */
module DiscoveryInvoke {
  import opened Basics
  import opened Discovery
  import opened Ancestry
  import opened Forest
  import opened DiscoveryTree

  datatype Verdict = Allowed | BadSize | NodeNotFound | MixedParents | ActionUnavailable | BranchNotActionable

  /** The first action of that id a node carries. */
  function FindAction(actions: seq<Action>, actionId: string): (r: Option<Action>)
    ensures r.Some? <==> exists i :: 0 <= i < |actions| && actions[i].id == actionId
    ensures r.Some? ==> r.value in actions && r.value.id == actionId
  {
    if actions == [] then None
    else if actions[0].id == actionId then Some(actions[0])
    else FindAction(actions[1..], actionId)
  }

  predicate Offers(node: Node, actionId: string, multi: bool) {
    var action := FindAction(node.actions, actionId);
    action.Some? && (multi ==> action.value.multi)
  }

  /** Siblings that all offer the action, for several at once when several are selected. */
  predicate Selectable(t: Tree, ids: seq<string>, actionId: string) {
    && |ids| > 0
    && (forall i :: 0 <= i < |ids| ==> ids[i] in t.nodes)
    && (forall i :: 0 <= i < |ids| ==>
          && t.nodes[ids[i]].parentId == t.nodes[ids[0]].parentId
          && Offers(t.nodes[ids[i]], actionId, |ids| > 1))
  }

  predicate Blocked(t: Tree, branch: string) {
    branch in t.branches && Blocks(t.branches[branch].state)
  }

  /** No branch from here up to the root, at any distance, is stale or failed. */
  ghost predicate PathClear(t: Tree, branch: string) {
    forall b :: Under(Up(t.nodes), branch, b) ==> !Blocked(t, b)
  }

  ghost predicate Invocable(t: Tree, ids: seq<string>, actionId: string) {
    && 1 <= |ids| <= MAX_NODES_PER_INVOKE
    && Selectable(t, ids, actionId)
    && PathClear(t, t.nodes[ids[0]].parentId)
  }

  lemma PathEndsAtRoot(t: Tree, branch: string, d: nat)
    requires IsForest(t) && Climbs(Up(t.nodes), branch, ROOT, d)
    requires forall k: nat, b :: k <= d && Climbs(Up(t.nodes), branch, b, k) ==> !Blocked(t, b)
    ensures PathClear(t, branch)
  {
    var up := Up(t.nodes);
    forall b | Under(up, branch, b)
      ensures !Blocked(t, b)
    {
      var k: nat :| Climbs(up, branch, b, k);
      if k > d {
        ClimbsAgree(up, branch, ROOT, b, d, k);
        assert false;
      }
    }
  }

  lemma {:induction false} ClimbIsUnique<K>(up: map<K, K>, x: K, a: K, b: K, k: nat)
    requires Climbs(up, x, a, k) && Climbs(up, x, b, k)
    ensures a == b
  {
    ClimbsAgree(up, x, a, b, k, k);
  }

  /** The bounded upward walk answers the unbounded question. */
  method CheckBranchActionable(tree: Plot, parentId: string) returns (clear: bool)
    requires tree.Valid() && (parentId == ROOT || parentId in tree.nodes)
    ensures clear <==> PathClear(tree.View(), parentId)
  {
    var current := parentId;
    ghost var t, up := tree.View(), Up(tree.nodes);
    for steps := 0 to MAX_DEPTH + 2
      invariant Climbs(up, parentId, current, steps) && (current == ROOT || current in tree.nodes)
      invariant forall k: nat, b :: k < steps && Climbs(up, parentId, b, k) ==> !Blocked(t, b)
    {
      if current in tree.branches && Blocks(tree.branches[current].state) {
        assert Under(up, parentId, current);
        return false;
      }
      forall b | Climbs(up, parentId, b, steps)
        ensures !Blocked(t, b)
      {
        ClimbIsUnique(up, parentId, current, b, steps);
      }
      if current == ROOT {
        PathEndsAtRoot(t, parentId, steps);
        return true;
      }
      ClimbOneMore(up, parentId, current, steps);
      assert RankFits(up, ROOT, MAX_DEPTH, RankOf(t), current);
      current := if current in tree.nodes then tree.nodes[current].parentId else ROOT;
    }
    assert RankFits(up, ROOT, MAX_DEPTH, RankOf(t), parentId);
    ClimbMeasured(up, ROOT, MAX_DEPTH, RankOf(t), parentId, current, MAX_DEPTH + 2);
    assert false;
  }

  method HasAll(tree: Plot, ids: seq<string>) returns (all: bool)
    ensures all <==> forall i :: 0 <= i < |ids| ==> ids[i] in tree.nodes
  {
    for i := 0 to |ids|
      invariant forall j :: 0 <= j < i ==> ids[j] in tree.nodes
    {
      if ids[i] !in tree.nodes {
        return false;
      }
    }
    return true;
  }

  method CheckSelection(tree: Plot, ids: seq<string>, actionId: string) returns (verdict: Verdict)
    requires |ids| > 0 && forall i :: 0 <= i < |ids| ==> ids[i] in tree.nodes
    ensures verdict in {Allowed, MixedParents, ActionUnavailable}
    ensures verdict == Allowed <==> Selectable(tree.View(), ids, actionId)
  {
    var parentId := tree.nodes[ids[0]].parentId;
    for i := 0 to |ids|
      invariant forall j :: 0 <= j < i ==>
                  tree.nodes[ids[j]].parentId == parentId && Offers(tree.nodes[ids[j]], actionId, |ids| > 1)
    {
      var node := tree.nodes[ids[i]];
      if node.parentId != parentId {
        return MixedParents;
      }
      var action := FindAction(node.actions, actionId);
      if action.None? || (|ids| > 1 && !action.value.multi) {
        return ActionUnavailable;
      }
    }
    return Allowed;
  }

  /**
   The whole check, with the size limit InvokeAction applies first: an action
   goes out exactly when every selected node exists, all are siblings offering
   it, and nothing on their way up to the root is stale or failed.
   */
  method CheckAction(tree: Plot, ids: seq<string>, actionId: string) returns (verdict: Verdict)
    requires tree.Valid()
    ensures verdict == Allowed <==> Invocable(tree.View(), ids, actionId)
    ensures verdict == BadSize <==> !(1 <= |ids| <= MAX_NODES_PER_INVOKE)
    ensures verdict == NodeNotFound ==> exists i :: 0 <= i < |ids| && ids[i] !in tree.nodes
    ensures verdict == BranchNotActionable ==>
              Selectable(tree.View(), ids, actionId) && !PathClear(tree.View(), tree.nodes[ids[0]].parentId)
  {
    if |ids| == 0 || |ids| > MAX_NODES_PER_INVOKE {
      return BadSize;
    }
    var all := HasAll(tree, ids);
    if !all {
      return NodeNotFound;
    }
    verdict := CheckSelection(tree, ids, actionId);
    if verdict != Allowed {
      return;
    }
    ParentIsInTree(tree.View(), ids[0]);
    var clear := CheckBranchActionable(tree, tree.nodes[ids[0]].parentId);
    return if clear then Allowed else BranchNotActionable;
  }

  lemma ParentIsInTree(t: Tree, x: string)
    requires IsForest(t) && x in t.nodes
    ensures t.nodes[x].parentId == ROOT || t.nodes[x].parentId in t.nodes
    ensures t.nodes[x].parentId in t.branches
  {
    assert RankFits(Up(t.nodes), ROOT, MAX_DEPTH, RankOf(t), x);
    assert ListedAtHome(Up(t.nodes), t.children, x);
  }
}
