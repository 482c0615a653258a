/**
 The single owner of every connection's trees, as the program keeps it
 (internal/usecase/discovery_store.go). The two nested maps of the program are
 one map keyed by the (connection, plugin) pair; every method holds the store's
 lock from start to end, so each is one step of a run.
 */
module DiscoveryStore {
  import opened Basics
  import opened Discovery
  import opened Forest
  import opened TreePublish
  import opened DiscoveryTree
  import opened StoreRuns
  import DiscoveryInvoke

  /** What the publisher is told. */
  ghost predicate Answers(outcome: Outcome, removed: seq<string>, refusal: Option<Refusal>) {
    match outcome
    case Applied(_, gone) => NoDup(removed) && SetOf(removed) == gone && refusal == None
    case Ignored => removed == [] && refusal == None
    case Refused(reason) => removed == [] && refusal == Some(reason)
  }

  lemma MergedSlot(
    x: Slot, after: Tree, parent: string, state: string, message: string, children: seq<Node>,
    removed: seq<string>, refusal: Option<Refusal>)
    requires Sound(x) && ValidSnapshot(children) && Shallow(Met(x)) && Plain(children)
    requires Carries(Met(x), after, Merge(Met(x), parent, state, message, children), removed, refusal)
    ensures Held(after) == PublishTo(x, parent, state, message, children)
    ensures Answers(Outcomes(x, parent, state, message, children), removed, refusal)
  {
  }

  function StaleIf(stale: bool, t: Tree): Tree {
    if stale then Restated(t, STALE) else t
  }

  class Store {
    var trees: map<Key, Plot>

    /** Every tree is a forest, and no two pairs share one. */
    ghost predicate Valid()
      reads this, trees.Values
    {
      && (forall k :: k in trees ==> trees[k].Valid())
      && (forall k, k' :: k in trees && k' in trees && k != k' ==> trees[k] != trees[k'])
    }

    ghost function At(k: Key): Slot
      reads this, trees.Values
    {
      if k in trees then Held(trees[k].View()) else Absent
    }

    /** Nothing but k's slot has changed: the other trees are the same objects with the same contents. */
    twostate predicate OthersStand(k: Key)
      reads this, trees.Values
    {
      && (forall k' :: k' != k ==> (k' in trees <==> k' in old(trees)))
      && (forall k' :: k' != k && k' in trees && k' in old(trees) ==>
            trees[k'] == old(trees)[k'] && unchanged(old(trees)[k']))
    }

    constructor ()
      ensures Valid() && forall k :: At(k) == Absent
    {
      trees := map[];
    }

    method TreeFor(k: Key) returns (tree: Plot)
      requires Valid()
      modifies this
      ensures Valid() && k in trees && trees[k] == tree && tree.View() == Met(old(At(k)))
      ensures OthersStand(k) && (if k in old(trees) then tree == old(trees)[k] else fresh(tree))
    {
      if k in trees {
        tree := trees[k];
      } else {
        tree := new Plot();
        trees := trees[k := tree];
      }
    }

    /** The tree of k takes the snapshot. */
    method MergeInto(k: Key, parentId: string, state: string, message: string, children: seq<Node>)
      returns (removed: seq<string>, refusal: Option<Refusal>)
      requires Valid() && k in trees && Plain(children)
      modifies trees[k]
      ensures Valid()
      ensures Carries(old(trees[k].View()), trees[k].View(),
                      Merge(old(trees[k].View()), parentId, state, message, children), removed, refusal)
    {
      var tree := trees[k];
      removed, refusal := tree.MergeSnapshot(parentId, state, message, children);
      forall k' | k' in trees && k' != k
        ensures trees[k'].Valid()
      {
        assert trees[k'] != tree;
      }
    }

    /**
     One publish: the pair's slot takes exactly its step, no other pair is
     touched, the caller learns exactly which ids left, and a refusal comes with
     its reason.
     */
    method ApplySnapshot(k: Key, parentId: string, state: string, message: string, children: seq<Node>)
      returns (removed: seq<string>, refusal: Option<Refusal>)
      requires Valid()
      modifies this, trees.Values
      ensures Valid() && Sound(old(At(k)))
      ensures At(k) == PublishTo(old(At(k)), parentId, state, message, children)
      ensures OthersStand(k)
      ensures Answers(Outcomes(old(At(k)), parentId, state, message, children), removed, refusal)
    {
      ghost var x := At(k);
      MetIsForest(x);
      var ok := ValidatePublish(children);
      if !ok {
        return [], Some(InvalidSnapshot);
      }
      ValidIsPlain(children);
      var tree := TreeFor(k);
      removed, refusal := MergeInto(k, parentId, state, message, children);
      assert OthersStand(k) by {
        forall k' | k' != k && k' in trees && k' in old(trees)
          ensures trees[k'] == old(trees)[k'] && unchanged(old(trees)[k'])
        {
          assert trees[k'] != tree;
        }
      }
      MergedSlot(x, tree.View(), parentId, state, message, children, removed, refusal);
    }

    /** After a change of k's tree alone, the store is valid if that tree still is one. */
    twostate lemma StillValid(k: Key)
      requires old(Valid()) && k in trees && trees == old(trees) && OthersStand(k) && trees[k].Valid()
      ensures Valid()
    {
    }

    twostate lemma SlotsElsewhere(k: Key)
      requires OthersStand(k)
      ensures forall k' :: k' != k ==> At(k') == old(At(k'))
    {
    }

    method SetBranchState(k: Key, node: string, state: string)
      requires Valid()
      modifies trees.Values
      ensures Valid() && Sound(old(At(k)))
      ensures At(k) == Step(old(At(k)), StoreRuns.SetBranchState(k, node, state), k) && OthersStand(k)
    {
      if k in trees {
        HostStepKeepsForest(trees[k].View(), StoreRuns.SetBranchState(k, node, state));
        trees[k].SetBranchState(node, state);
        StillValid(k);
      }
    }

    method MarkPluginStale(k: Key) returns (changed: bool)
      requires Valid()
      modifies trees.Values
      ensures Valid() && Sound(old(At(k)))
      ensures At(k) == Step(old(At(k)), StoreRuns.MarkPluginStale(k), k) && OthersStand(k)
      ensures changed <==> old(At(k)).Held? && !AllStale(old(At(k)).tree)
    {
      changed := false;
      if k in trees {
        HostStepKeepsForest(trees[k].View(), StoreRuns.MarkPluginStale(k));
        changed := trees[k].MarkStale();
        StillValid(k);
      }
    }

    method MarkPluginFailed(k: Key, message: string) returns (changed: bool)
      requires Valid()
      modifies trees.Values
      ensures Valid() && Sound(old(At(k)))
      ensures At(k) == Step(old(At(k)), StoreRuns.MarkPluginFailed(k, message), k) && OthersStand(k)
      ensures changed <==> old(At(k)).Held? && !NothingToFail(old(At(k)).tree, message)
    {
      changed := false;
      if k in trees {
        HostStepKeepsForest(trees[k].View(), StoreRuns.MarkPluginFailed(k, message));
        changed := trees[k].MarkFailed(message);
        StillValid(k);
      }
    }

    method ClearPlugin(k: Key) returns (removed: set<string>)
      requires Valid()
      modifies this
      ensures Valid() && At(k) == Absent && OthersStand(k)
      ensures removed == if old(At(k)).Held? then old(At(k)).tree.nodes.Keys else {}
    {
      removed := if k in trees then trees[k].nodes.Keys else {};
      trees := trees - {k};
    }

    method ClearConnection(connection: string)
      requires Valid()
      modifies this
      ensures Valid()
      ensures forall k :: k in trees <==> k in old(trees) && k.connection != connection
      ensures forall k :: k in trees ==> trees[k] == old(trees)[k] && unchanged(old(trees)[k])
    {
      ghost var before := trees;
      trees := map k | k in trees && k.connection != connection :: trees[k];
      forall k | k in trees ensures k in before && trees[k] == before[k] && trees[k].Valid() {
        assert before[k].Valid();
      }
      forall k, k' | k in trees && k' in trees && k != k' ensures trees[k] != trees[k'] {
        assert before[k] != before[k'];
      }
    }

    method StaleEach(all: set<Key>)
      requires all <= trees.Keys
      requires forall k, k' :: k in trees && k' in trees && k != k' ==> trees[k] != trees[k']
      modifies trees.Values
      ensures trees == old(trees)
      ensures forall k :: k in trees ==> trees[k].View() == StaleIf(k in all, old(trees[k].View()))
    {
      var todo := all;
      while todo != {}
        invariant todo <= all && trees == old(trees)
        invariant forall k :: k in trees ==> trees[k].View() == StaleIf(k in all && k !in todo, old(trees[k].View()))
        decreases todo
      {
        var k :| k in todo;
        label before:
        var changed := trees[k].MarkStale();
        forall k' | k' in trees && k' != k
          ensures trees[k'].View() == old@before(trees[k'].View())
        {
          assert trees[k'] != trees[k];
        }
        todo := todo - {k};
      }
    }

    /** The transition of a handover: every branch of every plugin of the connection, and of no other. */
    method MarkConnectionStale(connection: string)
      requires Valid()
      modifies trees.Values
      ensures Valid() && trees == old(trees)
      ensures forall k :: k in trees ==> trees[k].View() == StaleIf(k.connection == connection, old(trees[k].View()))
    {
      StaleEach(set k | k in trees && k.connection == connection);
      forall k | k in trees
        ensures trees[k].Valid()
      {
        HostStepKeepsForest(old(trees[k].View()), StoreRuns.MarkPluginStale(k));
      }
    }

    /** The store's door to the action check: an unknown pair has no nodes to act on. */
    method CheckAction(k: Key, ids: seq<string>, actionId: string) returns (verdict: DiscoveryInvoke.Verdict)
      requires Valid()
      ensures verdict == DiscoveryInvoke.Allowed <==>
              At(k).Held? && DiscoveryInvoke.Invocable(At(k).tree, ids, actionId)
    {
      if k !in trees {
        return if 1 <= |ids| <= MAX_NODES_PER_INVOKE then DiscoveryInvoke.NodeNotFound else DiscoveryInvoke.BadSize;
      }
      verdict := DiscoveryInvoke.CheckAction(trees[k], ids, actionId);
    }
  }
}
