/**
 Every run of store operations (internal/usecase/discovery_store.go), seen from
 one (connection, plugin) pair: the slot that holds its tree, what each
 operation does to the slot, and what no run can break. Operations on other
 pairs leave the slot alone, so the store is its slots.
 */
module StoreRuns {
  import opened Discovery
  import opened Ancestry
  import opened Forest
  import opened TreePublish
  import opened PublishLaws
  import opened DiscoveryInvoke

  datatype Key = Key(connection: string, plugin: string)

  datatype Op =
    | Publish(key: Key, parent: string, state: string, message: string, children: seq<Node>)
    | SetBranchState(key: Key, node: string, state: string)
    | MarkConnectionStale(connection: string)
    | MarkPluginStale(key: Key)
    | MarkPluginFailed(key: Key, message: string)
    | ClearConnection(connection: string)
    | ClearPlugin(key: Key)

  datatype Slot = Absent | Held(tree: Tree)

  ghost predicate Sound(x: Slot) { x.Held? ==> IsForest(x.tree) }

  /** Whether the operation is about this pair at all. */
  predicate Concerns(op: Op, k: Key) {
    match op
    case MarkConnectionStale(c) => c == k.connection
    case ClearConnection(c) => c == k.connection
    case _ => op.key == k
  }

  // ----- one step --------------------------------------------------------------------------

  /** The tree a publish meets: one is created on the first contact. */
  function Met(x: Slot): Tree {
    if x.Held? then x.tree else EMPTY_TREE
  }

  lemma MetIsForest(x: Slot)
    requires Sound(x)
    ensures IsForest(Met(x))
  {
    EmptyIsForest();
  }

  ghost function Outcomes(x: Slot, parent: string, state: string, message: string, children: seq<Node>): Outcome
    requires Sound(x)
  {
    if !ValidSnapshot(children) then Refused(InvalidSnapshot)
    else
      MetIsForest(x);
      ValidIsPlain(children);
      Merge(Met(x), parent, state, message, children)
  }

  /** Malformed: nothing happens. Otherwise the tree exists from now on, changed only if the snapshot applies. */
  ghost function PublishTo(x: Slot, parent: string, state: string, message: string, children: seq<Node>): Slot
    requires Sound(x)
  {
    match Outcomes(x, parent, state, message, children)
    case Applied(t, _) => Held(t)
    case Refused(InvalidSnapshot) => x
    case _ => Held(Met(x))
  }

  /** What the host itself does to a tree it holds. */
  function HostStep(t: Tree, op: Op): Slot {
    match op
    case SetBranchState(_, node, state) => Held(SetState(t, node, state))
    case MarkConnectionStale(_) => Held(Restated(t, STALE))
    case MarkPluginStale(_) => Held(Restated(t, STALE))
    case MarkPluginFailed(_, message) => Held(Failed(t, message))
    case ClearConnection(_) => Absent
    case ClearPlugin(_) => Absent
    case Publish(_, _, _, _, _) => Held(t)
  }

  ghost function Step(x: Slot, op: Op, k: Key): Slot
    requires Sound(x)
  {
    if !Concerns(op, k) then x
    else if op.Publish? then PublishTo(x, op.parent, op.state, op.message, op.children)
    else if x.Absent? then x
    else HostStep(x.tree, op)
  }

  // ----- the invariant over whole runs ------------------------------------------------------

  lemma HostStepKeepsForest(t: Tree, op: Op)
    requires IsForest(t)
    ensures Sound(HostStep(t, op))
    ensures HostStep(t, op).Held? ==> HostStep(t, op).tree.nodes == t.nodes && HostStep(t, op).tree.children == t.children
    ensures HostStep(t, op).Held? ==> HostStep(t, op).tree.branches.Keys == t.branches.Keys
  {
    if HostStep(t, op).Held? {
      var t' := HostStep(t, op).tree;
      assert t'.branches.Keys == t.branches.Keys;
      assert Ranked(Up(t'.nodes), ROOT, MAX_DEPTH, RankOf(t));
    }
  }

  lemma StepKeepsForest(x: Slot, op: Op, k: Key)
    requires Sound(x)
    ensures Sound(Step(x, op, k))
  {
    if Concerns(op, k) {
      if op.Publish? {
        MetIsForest(x);
        if Outcomes(x, op.parent, op.state, op.message, op.children).Applied? {
          ValidIsPlain(op.children);
          PublishKeepsForest(Met(x), op.parent, op.state, op.message, op.children);
        }
      } else if x.Held? {
        HostStepKeepsForest(x.tree, op);
      }
    }
  }

  /**
   The slot after a run. Its postcondition is the whole-run invariant: in every
   run the tree stays a forest rooted at "" - nodes and listings agree, no
   cycles, at most MAX_DEPTH deep, at most MAX_NODES_PER_PLUGIN nodes.
   */
  ghost function Run(x: Slot, ops: seq<Op>, k: Key): (r: Slot)
    requires Sound(x)
    ensures Sound(r)
    decreases |ops|
  {
    if ops == [] then x
    else
      var n := |ops| - 1;
      StepKeepsForest(Run(x, ops[..n], k), ops[n], k);
      Step(Run(x, ops[..n], k), ops[n], k)
  }

  // ----- a refused publish --------------------------------------------------------------------

  /**
   A snapshot that is refused or ignored leaves the pair exactly as it was if
   and only if it was malformed or a tree was there already; otherwise an empty
   tree has appeared.
   */
  lemma RefusedPublishIsNearlyInvisible(x: Slot, parent: string, state: string, message: string, children: seq<Node>)
    requires Sound(x) && !Outcomes(x, parent, state, message, children).Applied?
    ensures PublishTo(x, parent, state, message, children) == x <==> !ValidSnapshot(children) || x.Held?
    ensures PublishTo(x, parent, state, message, children) in {x, Held(EMPTY_TREE)}
  {
    MetIsForest(x);
    if ValidSnapshot(children) {
      ValidIsPlain(children);
      assert Outcomes(x, parent, state, message, children) != Refused(InvalidSnapshot);
    }
  }

  /** Such a run: an empty snapshot for a node nobody knows, sent to a pair without a tree, leaves one behind. */
  lemma IgnoredPublishLeavesATree(k: Key)
    ensures Run(Absent, [Publish(k, "gone", READY, "", [])], k) == Held(EMPTY_TREE)
  {
    var ops := [Publish(k, "gone", READY, "", [])];
    assert ops[..0] == [];
    assert ValidSnapshot([]);
    assert Outcomes(Absent, "gone", READY, "", []).Ignored?;
  }

  // ----- after a handover -----------------------------------------------------------------------

  /** A branch that would let an action through. */
  predicate Open(x: Slot, branch: string) {
    x.Held? && branch in x.tree.branches && !Blocks(x.tree.branches[branch].state)
  }

  /** The two ways a branch is vouched for: an accepted publish of it, or the host resetting it. */
  ghost predicate Confirms(x: Slot, op: Op, k: Key, branch: string)
    requires Sound(x)
  {
    || (op.Publish? && op.key == k && op.parent == branch
        && Outcomes(x, op.parent, op.state, op.message, op.children).Applied?)
    || (op.SetBranchState? && op.key == k && op.node == branch && !Blocks(op.state))
  }

  lemma PublishOpensOneBranch(x: Slot, parent: string, state: string, message: string, children: seq<Node>, branch: string)
    requires Sound(x) && branch != parent
    ensures Open(PublishTo(x, parent, state, message, children), branch) ==> Open(x, branch)
  {
    if Outcomes(x, parent, state, message, children).Applied? {
      MetIsForest(x);
      ValidIsPlain(children);
      OtherBranchKept(Met(x), parent, state, message, children, branch);
    }
  }

  lemma HostOpensOneBranch(t: Tree, op: Op, branch: string)
    requires !op.Publish? && (op.SetBranchState? ==> op.node != branch || Blocks(op.state))
    ensures Open(HostStep(t, op), branch) ==> Open(Held(t), branch)
  {
  }

  lemma OpensOnlyByConfirmation(x: Slot, op: Op, k: Key, branch: string)
    requires Sound(x) && !Open(x, branch) && Open(Step(x, op, k), branch)
    ensures Confirms(x, op, k, branch)
  {
    if op.Publish? {
      if op.parent != branch {
        PublishOpensOneBranch(x, op.parent, op.state, op.message, op.children, branch);
      } else if !Outcomes(x, op.parent, op.state, op.message, op.children).Applied? {
        RefusedPublishIsNearlyInvisible(x, op.parent, op.state, op.message, op.children);
      }
    } else if !(op.SetBranchState? && op.node == branch && !Blocks(op.state)) {
      HostOpensOneBranch(x.tree, op, branch);
    }
  }

  lemma {:induction false} OpenedMeansConfirmed(x: Slot, ops: seq<Op>, k: Key, branch: string) returns (i: nat)
    requires Sound(x) && !Open(x, branch) && Open(Run(x, ops, k), branch)
    ensures i < |ops| && Confirms(Run(x, ops[..i], k), ops[i], k, branch)
    decreases |ops|
  {
    var n := |ops| - 1;
    if Open(Run(x, ops[..n], k), branch) {
      i := OpenedMeansConfirmed(x, ops[..n], k, branch);
      assert ops[..n][..i] == ops[..i];
    } else {
      OpensOnlyByConfirmation(Run(x, ops[..n], k), ops[n], k, branch);
      i := n;
    }
  }

  lemma BranchOnPath(t: Tree, x: string, branch: string)
    requires IsForest(t) && x in t.nodes && Under(Up(t.nodes), t.nodes[x].parentId, branch)
    ensures branch in t.branches
  {
    var up := Up(t.nodes);
    var k: nat :| Climbs(up, up[x], branch, k);
    assert Climbs(up, x, branch, k + 1);
    var c := ClimbThroughChild(up, x, branch, k + 1);
    assert ListedAtHome(up, t.children, c);
  }

  /** Every branch waits to be confirmed. */
  predicate AllBlocked(x: Slot) {
    x.Held? ==> forall b :: b in x.tree.branches ==> Blocks(x.tree.branches[b].state)
  }

  /**
   Whatever happens after a tree went stale, an action on one of its nodes is
   accepted only once every branch on the node's path to the root has been
   published anew or reset by the host since.
   */
  lemma StaleUntilConfirmed(x: Slot, ops: seq<Op>, k: Key, ids: seq<string>, actionId: string, branch: string) returns (i: nat)
    requires Sound(x) && AllBlocked(x)
    requires Run(x, ops, k).Held? && Invocable(Run(x, ops, k).tree, ids, actionId)
    requires var t := Run(x, ops, k).tree; Under(Up(t.nodes), t.nodes[ids[0]].parentId, branch)
    ensures i < |ops| && Confirms(Run(x, ops[..i], k), ops[i], k, branch)
  {
    BranchOnPath(Run(x, ops, k).tree, ids[0], branch);
    i := OpenedMeansConfirmed(x, ops, k, branch);
  }

  /** A handover, a crash, and giving up on a plugin each leave its tree in that state. */
  lemma HandoverBlocks(x: Slot, k: Key, message: string)
    requires Sound(x)
    ensures AllBlocked(Step(x, MarkConnectionStale(k.connection), k))
    ensures AllBlocked(Step(x, MarkPluginStale(k), k))
    ensures AllBlocked(Step(x, MarkPluginFailed(k, message), k))
  {
    if x.Held? {
      assert AllBlocked(HostStep(x.tree, MarkConnectionStale(k.connection)));
      assert AllBlocked(HostStep(x.tree, MarkPluginStale(k)));
      assert AllBlocked(HostStep(x.tree, MarkPluginFailed(k, message)));
    }
  }

  /**
   The comparison is with the raw message, the write with the sanitised one: a
   repeated call reports no change if and only if sanitising leaves the message
   alone or the first call already had nothing to do.
   */
  lemma RepeatedFailure(t: Tree, message: string)
    ensures NothingToFail(Failed(t, message), message) <==> SanitizeText(message) == message || NothingToFail(t, message)
  {
    if SanitizeText(message) != message && !NothingToFail(t, message) {
      var b :| b in t.branches && !AlreadyFailed(t.branches[b], message);
      assert b in Failed(t, message).branches;
    }
  }

  lemma RootIsPublished(k: Key)
    ensures var x := Run(Absent, [Publish(k, ROOT, READY, "", [])], k);
            x.Held? && ROOT in x.tree.branches && x.tree.branches[ROOT].state == READY
  {
    var ops := [Publish(k, ROOT, READY, "", [])];
    assert ops[..0] == [];
    assert ValidSnapshot([]);
    MetIsForest(Absent);
    assert Outcomes(Absent, ROOT, READY, "", []).Applied?;
  }

  /**
   Such a run: a plugin given up on with a message of one control character. Its
   branch then shows the empty text, and giving up again with the same message
   counts as a change although it changes nothing.
   */
  lemma ControlCharacterCountsAgain(k: Key)
    ensures var x := Run(Absent, [Publish(k, ROOT, READY, "", []), MarkPluginFailed(k, "\t")], k);
            x.Held? && !NothingToFail(x.tree, "\t") && Failed(x.tree, "\t") == x.tree
  {
    var ops := [Publish(k, ROOT, READY, "", []), MarkPluginFailed(k, "\t")];
    RootIsPublished(k);
    assert ops[..1] == [Publish(k, ROOT, READY, "", [])];
    var t := Run(Absent, ops[..1], k).tree;
    assert Run(Absent, ops, k) == Held(Failed(t, "\t"));
    ControlCharacterFails(t);
  }

  lemma ControlCharacterFails(t: Tree)
    requires ROOT in t.branches && t.branches[ROOT].state == READY
    ensures var t' := Failed(t, "\t"); !NothingToFail(t', "\t") && Failed(t', "\t") == t'
  {
    assert SanitizeText("\t") == "" by { assert "\t"[1..] == ""; }
    var t' := Failed(t, "\t");
    assert ROOT in t'.branches && !AlreadyFailed(t'.branches[ROOT], "\t");
    assert Failed(t', "\t").branches == t'.branches;
  }
}
