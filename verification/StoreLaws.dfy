/**
 What each store operation leaves of a pair's tree, told branch by branch, and
 over whole runs: a branch shows the last word spoken about it.
 */
module StoreLaws {
  import opened Basics
  import opened Discovery
  import opened SiblingOrder
  import opened Ancestry
  import opened Forest
  import opened TreePublish
  import opened PublishLaws
  import opened StoreRuns
  import opened PublishContents

  /** The snapshot is accepted for this pair. */
  ghost predicate Publishes(x: Slot, op: Op, k: Key, branch: string)
    requires Sound(x)
  {
    && op.Publish? && op.key == k && op.parent == branch
    && Outcomes(x, op.parent, op.state, op.message, op.children).Applied?
  }

  predicate Stales(op: Op, k: Key) {
    (op.MarkConnectionStale? && op.connection == k.connection) || (op.MarkPluginStale? && op.key == k)
  }

  predicate Clears(op: Op, k: Key) {
    (op.ClearConnection? && op.connection == k.connection) || (op.ClearPlugin? && op.key == k)
  }

  /** What the operation says about the state of a branch, if anything. */
  ghost function Word(x: Slot, op: Op, k: Key, branch: string): Option<string>
    requires Sound(x)
  {
    if Publishes(x, op, k, branch) then Some(if op.state in {LOADING, READY, ERROR} then op.state else READY)
    else if op.SetBranchState? && op.key == k && op.node == branch then Some(op.state)
    else if Stales(op, k) then Some(STALE)
    else if op.MarkPluginFailed? && op.key == k then Some(ERROR)
    else None
  }

  ghost function BranchIn(x: Slot, branch: string): Option<Branch> {
    if x.Held? && branch in x.tree.branches then Some(x.tree.branches[branch]) else None
  }

  /** The text a branch shows after the operation: a publish brings its own, giving up on a plugin brings one, anything else keeps it. */
  ghost predicate TextFollows(x: Slot, op: Op, k: Key, branch: string, was: Option<Branch>, now: Branch)
    requires Sound(x)
  {
    if Publishes(x, op, k, branch) then Cleaned(op.message, now.error)
    else if op.MarkPluginFailed? && op.key == k then
      was.Some? && (if was.value.state == ERROR && was.value.error == op.message then now.error == op.message else Cleaned(op.message, now.error))
    else was.Some? && now.error == was.value.error
  }

  lemma HostBranchStep(t: Tree, op: Op, k: Key, branch: string)
    requires Concerns(op, k) && !op.Publish? && HostStep(t, op).Held? && branch in HostStep(t, op).tree.branches && IsForest(t)
    ensures var now := HostStep(t, op).tree.branches[branch];
            && branch in t.branches && now.truncated == t.branches[branch].truncated
            && now.state == (if Word(Held(t), op, k, branch).Some? then Word(Held(t), op, k, branch).value else t.branches[branch].state)
            && TextFollows(Held(t), op, k, branch, Some(t.branches[branch]), now)
  {
    if op.MarkPluginFailed? {
      SanitizedIsCleaned(op.message);
    }
  }

  lemma PublishBranchStep(x: Slot, op: Op, k: Key, branch: string)
    requires Sound(x) && op.Publish? && op.key == k && BranchIn(Step(x, op, k), branch).Some?
    ensures var was, now := BranchIn(x, branch), BranchIn(Step(x, op, k), branch).value;
            if Publishes(x, op, k, branch)
            then now.state == (if op.state in {LOADING, READY, ERROR} then op.state else READY) && Cleaned(op.message, now.error)
            else was == Some(now)
  {
    MetIsForest(x);
    if Outcomes(x, op.parent, op.state, op.message, op.children).Applied? {
      ValidIsPlain(op.children);
      if op.parent == branch {
        BranchTellsThePublish(Met(x), op.parent, op.state, op.message, op.children);
      } else {
        OtherBranchKept(Met(x), op.parent, op.state, op.message, op.children, branch);
      }
    } else {
      RefusedPublishIsNearlyInvisible(x, op.parent, op.state, op.message, op.children);
    }
  }

  /**
   One step, branch by branch: a branch that is there afterwards shows what the
   operation said about it, or what it showed before.
   */
  lemma BranchStep(x: Slot, op: Op, k: Key, branch: string)
    requires Sound(x) && BranchIn(Step(x, op, k), branch).Some?
    ensures var was, now := BranchIn(x, branch), BranchIn(Step(x, op, k), branch).value;
            var word := Word(x, op, k, branch);
            && (word.None? ==> was.Some?)
            && now.state == (if word.Some? then word.value else was.value.state)
            && TextFollows(x, op, k, branch, was, now)
  {
    if Concerns(op, k) {
      if op.Publish? {
        PublishBranchStep(x, op, k, branch);
      } else {
        HostBranchStep(x.tree, op, k, branch);
      }
    }
  }

  /** What stays of a tree under the host's own operations: every node, every listing, every branch, unless it is cleared. */
  lemma HostKeepsNodes(x: Slot, op: Op, k: Key)
    requires Sound(x) && !op.Publish?
    ensures Clears(op, k) ==> Step(x, op, k) == Absent
    ensures !Clears(op, k) ==> (Step(x, op, k).Held? <==> x.Held?)
    ensures !Clears(op, k) && x.Held? ==>
              && Step(x, op, k).tree.nodes == x.tree.nodes && Step(x, op, k).tree.children == x.tree.children
              && Step(x, op, k).tree.branches.Keys == x.tree.branches.Keys
  {
    if x.Held? && Concerns(op, k) {
      HostStepKeepsForest(x.tree, op);
    }
  }

  /** Step i said something about the branch. */
  ghost function SpeaksAt(x: Slot, ops: seq<Op>, k: Key, branch: string): nat -> bool
    requires Sound(x)
  {
    (i: nat) => i < |ops| && Word(Run(x, ops[..i], k), ops[i], k, branch).Some?
  }

  lemma SpokenStays(speaks: nat -> bool, n: nat, i: nat)
    requires SinceStep(speaks, speaks, n, i) && !speaks(n)
    ensures SinceStep(speaks, speaks, n + 1, i)
  {
  }

  /** Over every run from nothing, each branch shows the last word spoken about it, and there was one. */
  lemma {:induction false} BranchShowsLastWord(ops: seq<Op>, k: Key, branch: string, n: nat) returns (i: nat)
    requires n <= |ops| && BranchIn(Run(Absent, ops[..n], k), branch).Some?
    ensures SinceStep(SpeaksAt(Absent, ops, k, branch), SpeaksAt(Absent, ops, k, branch), n, i) && i < |ops|
    ensures Word(Run(Absent, ops[..i], k), ops[i], k, branch) == Some(BranchIn(Run(Absent, ops[..n], k), branch).value.state)
    decreases n
  {
    var speaks := SpeaksAt(Absent, ops, k, branch);
    var m := n - 1;
    var x := Run(Absent, ops[..m], k);
    assert ops[..n][..m] == ops[..m];
    BranchStep(x, ops[m], k, branch);
    if Word(x, ops[m], k, branch).Some? {
      i := m;
    } else {
      i := BranchShowsLastWord(ops, k, branch, m);
      SpokenStays(speaks, m, i);
    }
  }

  // ----- what a publish is told, and what it cannot do ---------------------------------------------

  predicate LivesElsewhere(t: Tree, parent: string, id: string) {
    id in t.nodes && t.nodes[id].parentId != parent
  }

  /** Each answer and exactly when a publish gets it. */
  lemma PublishIsAnswered(x: Slot, parent: string, state: string, message: string, children: seq<Node>)
    requires Sound(x)
    ensures var out := Outcomes(x, parent, state, message, children);
            var valid := AllValid(children) && Distinct(children);
            var known := parent == "" || parent in Met(x).nodes;
            var leaf := parent in Met(x).nodes && Met(x).nodes[parent].kind == "instance";
            var moves := exists i :: 0 <= i < |children| && LivesElsewhere(Met(x), parent, children[i].id);
            && (out == Refused(InvalidSnapshot) <==> !valid)
            && (out == Ignored <==> valid && !known)
            && (out == Refused(LeafParent) <==> valid && leaf)
            && (out == Refused(DuplicateNode) <==> valid && known && !leaf && moves)
            && (out.Applied? <==> valid && known && !leaf && !moves)
  {
    ValidSnapshotMeans(children);
    MetIsForest(x);
    var moves := exists i :: 0 <= i < |children| && LivesElsewhere(Met(x), parent, children[i].id);
    assert moves <==> Moves(Met(x), parent, children) by {
      if Moves(Met(x), parent, children) {
        var i :| 0 <= i < |children| && children[i].id in Met(x).nodes && Met(x).nodes[children[i].id].parentId != parent;
        assert LivesElsewhere(Met(x), parent, children[i].id);
      }
    }
  }

  /** While a node stays in the tree it keeps its parent: no operation moves one. */
  lemma NodesNeverMove(x: Slot, op: Op, k: Key, id: string)
    requires Sound(x) && x.Held? && Step(x, op, k).Held? && id in x.tree.nodes && id in Step(x, op, k).tree.nodes
    ensures Step(x, op, k).tree.nodes[id].parentId == x.tree.nodes[id].parentId
  {
    if op.Publish? && op.key == k {
      var out := Outcomes(x, op.parent, op.state, op.message, op.children);
      if out.Applied? {
        ValidIsPlain(op.children);
        PublishKeepsParents(x.tree, op.parent, op.state, op.message, op.children, id);
      }
    } else if !op.Publish? {
      HostKeepsNodes(x, op, k);
      assert !Clears(op, k);
    }
  }

  lemma PublishKeepsParents(t: Tree, parent: string, state: string, message: string, children: seq<Node>, id: string)
    requires IsForest(t) && Plain(children) && Merge(t, parent, state, message, children).Applied?
    requires id in t.nodes && id in Merge(t, parent, state, message, children).tree.nodes
    ensures Merge(t, parent, state, message, children).tree.nodes[id].parentId == t.nodes[id].parentId
  {
    PublishFits(t, parent, state, message, children);
    RestOfTreeStands(t, parent, state, message, children);
  }

  // ----- how siblings are listed --------------------------------------------------------------

  /** a comes first at the place where the two texts first differ, or ends there. */
  predicate DiffersAt(a: string, b: string, k: nat) {
    && k <= |a| && k < |b| && a[..k] == b[..k]
    && (k == |a| || a[k] < b[k])
  }

  ghost predicate Precedes(a: string, b: string) {
    exists k: nat :: DiffersAt(a, b, k)
  }

  lemma {:induction false} TextLessIsFirstDifference(a: string, b: string)
    requires TextLess(a, b)
    ensures Precedes(a, b)
    decreases |a|
  {
    if a == [] || a[0] < b[0] {
      assert DiffersAt(a, b, 0);
    } else {
      TextLessIsFirstDifference(a[1..], b[1..]);
      var k: nat :| DiffersAt(a[1..], b[1..], k);
      assert a[..k + 1] == [a[0]] + a[1..][..k] && b[..k + 1] == [b[0]] + b[1..][..k];
      assert DiffersAt(a, b, k + 1);
    }
  }

  /** In every tree siblings are listed by ascending order number, then by caption, then by id. */
  lemma ListingsAscend(t: Tree, p: string, i: nat, j: nat)
    requires IsForest(t) && p in t.children && i < j < |t.children[p]|
    ensures t.children[p][i] in t.nodes && t.children[p][j] in t.nodes
    ensures var a, b := t.nodes[t.children[p][i]], t.nodes[t.children[p][j]];
            || a.order < b.order
            || (a.order == b.order && (Precedes(a.caption, b.caption) || (a.caption == b.caption && Precedes(a.id, b.id))))
  {
    assert InOrder(t.nodes, t.children[p]);
    var a, b := t.nodes[t.children[p][i]], t.nodes[t.children[p][j]];
    if a.order == b.order {
      if a.caption != b.caption {
        TextLessIsFirstDifference(a.caption, b.caption);
      } else {
        TextLessIsFirstDifference(a.id, b.id);
      }
    }
  }

  // ----- what is in the tree -------------------------------------------------------------------

  /** No control character and no bidirectional override. */
  predicate Harmless(c: char) {
    0x20 <= c as int < 0x7f || 0xa0 <= c as int < 0x202a || 0x202e < c as int < 0x2066 || 0x2069 < c as int
  }

  /** Text that may be shown, of limited length. */
  predicate Showable(text: string, limit: nat) {
    |text| <= limit && forall i :: 0 <= i < |text| ==> Harmless(text[i])
  }

  predicate ProperAction(a: Action) {
    && 0 < |a.id| <= 256 && a.caption != "" && Showable(a.caption, 128) && Showable(a.confirm, 256)
    && a.role in {"", "delete"}
  }

  /** Action ids are distinct, at most one deletes, and the default action is one of them. */
  predicate ProperActions(actions: seq<Action>, chosen: string) {
    && |actions| <= 16
    && (forall i :: 0 <= i < |actions| ==> ProperAction(actions[i]))
    && (forall i, j :: 0 <= i < j < |actions| ==> actions[i].id != actions[j].id)
    && (forall i, j :: 0 <= i < j < |actions| && actions[i].role == "delete" ==> actions[j].role != "delete")
    && (chosen == "" || exists i :: 0 <= i < |actions| && actions[i].id == chosen)
  }

  predicate ProperStatus(status: Option<Status>) {
    status.Some? ==>
      && status.value.tone in {"ok", "warn", "error", "busy", "neutral", "unknown"}
      && |status.value.color| in {0, 7} && Showable(status.value.tooltip, 256)
  }

  predicate Proper(n: Node) {
    && 0 < |n.id| <= 256 && n.kind in {"group", "instance"}
    && n.caption != "" && Showable(n.caption, 128)
    && ProperStatus(n.status) && ProperActions(n.actions, n.defaultActionId)
  }

  lemma CleanIsShowable(text: string, limit: nat)
    requires |SanitizeText(text)| <= limit
    ensures Showable(SanitizeText(text), limit)
  {
    SanitizedIsCleaned(text);
    var clean := SanitizeText(text);
    var at :| Picks(text, clean, at);
    forall k | 0 <= k < |clean| ensures Harmless(clean[k]) {
      assert at[k] in at;
    }
  }

  lemma ActionsAreProper(n: Node)
    requires ValidActions(n)
    ensures ProperActions(SanitizeActions(n.actions), n.defaultActionId)
  {
    var held := SanitizeActions(n.actions);
    forall i | 0 <= i < |held| ensures ProperAction(held[i]) {
      assert ValidAction(n.actions[i]);
      CleanIsShowable(n.actions[i].caption, 128);
      CleanIsShowable(n.actions[i].confirm, 256);
    }
    assert forall i :: 0 <= i < |held| ==> held[i].id == n.actions[i].id && held[i].role == n.actions[i].role;
    if n.defaultActionId != "" {
      var i :| 0 <= i < |n.actions| && n.actions[i].id == n.defaultActionId;
      assert held[i].id == n.defaultActionId;
    }
  }

  lemma StoredIsProper(n: Node, parent: string)
    requires ValidNode(n)
    ensures Proper(Stored(n, parent))
  {
    CleanIsShowable(n.caption, 128);
    ActionsAreProper(n);
    if n.status.Some? {
      CleanIsShowable(n.status.value.tooltip, 256);
    }
  }

  predicate AllProper(x: Slot) {
    x.Held? ==> forall id :: id in x.tree.nodes ==> Proper(x.tree.nodes[id])
  }

  lemma PublishKeepsProper(t: Tree, parent: string, state: string, message: string, children: seq<Node>)
    requires IsForest(t) && ValidSnapshot(children) && Plain(children) && Merge(t, parent, state, message, children).Applied?
    requires AllProper(Held(t))
    ensures AllProper(Held(Merge(t, parent, state, message, children).tree))
  {
    var out, admitted := Merge(t, parent, state, message, children), Admitted(t, parent, children);
    AdmittedIsDistinct(t, parent, children);
    forall c | c in admitted ensures ValidNode(c) { ValidOne(children, c); }
    forall id | id in out.tree.nodes ensures Proper(out.tree.nodes[id]) {
      InstalledIsProper(t.nodes - out.removed, admitted, parent, id);
    }
  }

  lemma InstalledIsProper(nodes: map<string, Node>, admitted: seq<Node>, parent: string, id: string)
    requires Distinct(admitted) && (forall c :: c in admitted ==> ValidNode(c)) && id in Install(nodes, admitted, parent)
    requires id in nodes ==> Proper(nodes[id])
    ensures Proper(Install(nodes, admitted, parent)[id])
  {
    InstallKeys(nodes, admitted, parent);
    if id in IdSet(admitted) {
      var i :| 0 <= i < |admitted| && admitted[i].id == id;
      InstallAt(nodes, admitted, parent, i);
      StoredIsProper(admitted[i], parent);
    } else {
      InstallElsewhere(nodes, admitted, parent, id);
    }
  }

  lemma ValidOne(children: seq<Node>, c: Node)
    requires ValidSnapshot(children) && c in children
    ensures ValidNode(c)
  {
    ValidSnapshotMeans(children);
  }

  /**
   Whatever plugins publish: in every run every node in the tree is proper - ids
   and texts within their limits and free of characters that may not be shown,
   known kinds, tones and roles, distinct actions, a default action that exists.
   */
  lemma {:induction false} EveryNodeIsProper(ops: seq<Op>, k: Key)
    ensures AllProper(Run(Absent, ops, k))
    decreases |ops|
  {
    if ops != [] {
      var n := |ops| - 1;
      var x, op := Run(Absent, ops[..n], k), ops[n];
      EveryNodeIsProper(ops[..n], k);
      if !op.Publish? {
        HostKeepsNodes(x, op, k);
      } else if op.key == k {
        MetIsForest(x);
        if Outcomes(x, op.parent, op.state, op.message, op.children).Applied? {
          ValidIsPlain(op.children);
          PublishKeepsProper(Met(x), op.parent, op.state, op.message, op.children);
        } else {
          RefusedPublishIsNearlyInvisible(x, op.parent, op.state, op.message, op.children);
        }
      }
    }
  }
}
