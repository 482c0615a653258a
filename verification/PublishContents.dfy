/**
 What an accepted child is in the tree afterwards: the plugin's own node under
 the published parent, every field as sent but for the characters that may not
 be shown, and its actions there to be invoked.
 */
module PublishContents {
  import opened Basics
  import opened Discovery
  import opened Ancestry
  import opened Forest
  import opened TreePublish
  import opened PublishLaws
  import opened DiscoveryInvoke

  // ----- text ------------------------------------------------------------------------------

  predicate Increasing(at: seq<int>) {
    forall j, k :: 0 <= j < k < |at| ==> at[j] < at[k]
  }

  predicate Reads(raw: string, clean: string, at: seq<int>) {
    |at| == |clean| && forall k :: 0 <= k < |at| ==> 0 <= at[k] < |raw| && clean[k] == raw[at[k]]
  }

  /** at lists, in order, the places of exactly the characters that may be shown; clean is what stands there. */
  ghost predicate Picks(raw: string, clean: string, at: seq<int>) {
    && Increasing(at) && Reads(raw, clean, at)
    && forall i :: 0 <= i < |raw| ==> (i in at <==> !Stripped(raw[i]))
  }

  /** clean is raw without its control characters and bidirectional overrides, the rest in place. */
  ghost predicate Cleaned(raw: string, clean: string) {
    exists at :: Picks(raw, clean, at)
  }

  lemma {:induction false} SanitizedIsCleaned(raw: string)
    ensures Cleaned(raw, SanitizeText(raw))
    decreases |raw|
  {
    if raw == [] {
      assert Picks(raw, SanitizeText(raw), []);
    } else {
      SanitizedIsCleaned(raw[1..]);
      var rest :| Picks(raw[1..], SanitizeText(raw[1..]), rest);
      CleanedFront(raw, SanitizeText(raw[1..]), rest);
    }
  }

  function Shifted(at: seq<int>): seq<int> {
    seq(|at|, k requires 0 <= k < |at| => at[k] + 1)
  }

  lemma ShiftedMembers(at: seq<int>, i: int)
    ensures i in Shifted(at) <==> i - 1 in at
  {
    if i - 1 in at {
      var k :| 0 <= k < |at| && at[k] == i - 1;
      assert Shifted(at)[k] == i;
    }
  }

  lemma ShiftedReads(raw: string, clean: string, at: seq<int>)
    requires raw != [] && Increasing(at) && Reads(raw[1..], clean, at)
    ensures Increasing(Shifted(at)) && Reads(raw, clean, Shifted(at))
    ensures Increasing([0] + Shifted(at)) && Reads(raw, [raw[0]] + clean, [0] + Shifted(at))
  {
    var moved := Shifted(at);
    assert Increasing(moved);
    assert Reads(raw, clean, moved);
  }

  lemma CleanedFront(raw: string, clean: string, rest: seq<int>)
    requires raw != [] && Picks(raw[1..], clean, rest)
    ensures Cleaned(raw, (if Stripped(raw[0]) then [] else [raw[0]]) + clean)
  {
    var moved := Shifted(rest);
    var at := if Stripped(raw[0]) then moved else [0] + moved;
    ShiftedReads(raw, clean, rest);
    forall i | 0 <= i < |raw|
      ensures i in at <==> !Stripped(raw[i])
    {
      ShiftedMembers(rest, i);
      assert i in at <==> i in moved || (i == 0 && !Stripped(raw[0]));
      assert i > 0 ==> raw[i] == raw[1..][i - 1];
    }
    assert [] + clean == clean;
    assert Picks(raw, (if Stripped(raw[0]) then [] else [raw[0]]) + clean, at);
  }

  // ----- one node ---------------------------------------------------------------------------

  ghost predicate ActionKept(sent: Action, held: Action) {
    && held.id == sent.id && held.multi == sent.multi && held.role == sent.role
    && Cleaned(sent.caption, held.caption) && Cleaned(sent.confirm, held.confirm)
  }

  ghost predicate ActionsKept(sent: seq<Action>, held: seq<Action>) {
    |held| == |sent| && forall i :: 0 <= i < |sent| ==> ActionKept(sent[i], held[i])
  }

  ghost predicate StatusKept(sent: Option<Status>, held: Option<Status>) {
    if sent.None? then held.None?
    else
      && held.Some? && held.value.tone == sent.value.tone && held.value.color == sent.value.color
      && Cleaned(sent.value.tooltip, held.value.tooltip)
  }

  /** held is the node the plugin sent, below parent and with its texts cleaned. */
  ghost predicate NodeKept(sent: Node, held: Node, parent: string) {
    && held.id == sent.id && held.kind == sent.kind && held.iconId == sent.iconId && held.order == sent.order
    && held.defaultActionId == sent.defaultActionId && held.parentId == parent
    && Cleaned(sent.caption, held.caption)
    && StatusKept(sent.status, held.status)
    && ActionsKept(sent.actions, held.actions)
  }

  lemma SanitizedActionsKept(actions: seq<Action>)
    ensures ActionsKept(actions, SanitizeActions(actions))
  {
    forall i | 0 <= i < |actions|
      ensures ActionKept(actions[i], SanitizeActions(actions)[i])
    {
      SanitizedIsCleaned(actions[i].caption);
      SanitizedIsCleaned(actions[i].confirm);
    }
  }

  lemma StoredIsKept(sent: Node, parent: string)
    ensures NodeKept(sent, Stored(sent, parent), parent)
  {
    SanitizedIsCleaned(sent.caption);
    SanitizedActionsKept(sent.actions);
    if sent.status.Some? {
      SanitizedIsCleaned(sent.status.value.tooltip);
    }
  }

  // ----- the published tree --------------------------------------------------------------------

  lemma AdmittedIsDistinct(t: Tree, parent: string, children: seq<Node>)
    requires Shallow(t) && Distinct(children)
    ensures Distinct(Admitted(t, parent, children))
    ensures forall c :: c in Admitted(t, parent, children) ==> c in children
  {
    var kept := Kept(children);
    SelectKeepsDistinct(t.nodes, kept, Budget(t, parent, kept));
    forall c | c in Admitted(t, parent, children)
      ensures c in children
    {
      SelectMembers(t.nodes, kept, Budget(t, parent, kept), c);
    }
  }

  lemma {:induction false} SelectSpends(nodes: map<string, Node>, kept: seq<Node>, budget: nat)
    ensures CountNew(nodes, Select(nodes, kept, budget)) == if CountNew(nodes, kept) < budget then CountNew(nodes, kept) else budget
    decreases |kept|
  {
    if kept != [] {
      var n := |kept| - 1;
      SelectSpends(nodes, kept[..n], budget);
      var before := Select(nodes, kept[..n], budget);
      assert (before + [kept[n]])[..|before|] == before;
    }
  }

  lemma {:induction false} SelectExactly(nodes: map<string, Node>, kept: seq<Node>, budget: nat, i: nat)
    requires Distinct(kept) && i < |kept|
    ensures kept[i] in Select(nodes, kept, budget) <==> kept[i].id in nodes || CountNew(nodes, kept[..i]) < budget
    decreases |kept|
  {
    var n := |kept| - 1;
    if i < n {
      SelectExactly(nodes, kept[..n], budget, i);
      assert kept[..n][..i] == kept[..i];
      SelectEarlier(nodes, kept, budget, i);
    } else {
      SelectLatest(nodes, kept, budget);
    }
  }

  lemma SelectEarlier(nodes: map<string, Node>, kept: seq<Node>, budget: nat, i: nat)
    requires Distinct(kept) && i < |kept| - 1
    ensures kept[i] in Select(nodes, kept, budget) <==> kept[i] in Select(nodes, kept[..|kept| - 1], budget)
  {
    var n := |kept| - 1;
    assert kept[i].id != kept[n].id;
  }

  lemma SelectLatest(nodes: map<string, Node>, kept: seq<Node>, budget: nat)
    requires Distinct(kept) && kept != []
    ensures var n := |kept| - 1;
            kept[n] in Select(nodes, kept, budget) <==> kept[n].id in nodes || CountNew(nodes, kept[..n]) < budget
  {
    var n := |kept| - 1;
    SelectSpends(nodes, kept[..n], budget);
    SelectMembers(nodes, kept[..n], budget, kept[n]);
  }

  /**
   Who gets in: where there is depth left, of the first MAX_CHILDREN_PER_PUBLISH
   children exactly those already in the tree and as many new ones, from the
   front, as there is room for once the dropped nodes are gone.
   */
  lemma AdmittedExactly(t: Tree, parent: string, children: seq<Node>, i: nat)
    requires IsForest(t) && Distinct(children) && i < |children|
    ensures children[i] in Admitted(t, parent, children)
            <==> && Depth(t, parent) < MAX_DEPTH && i < MAX_CHILDREN_PER_PUBLISH
                 && (children[i].id in t.nodes || CountNew(t.nodes, children[..i]) < Budget(t, parent, Kept(children)))
  {
    var kept := Kept(children);
    BudgetIsThere(t, parent, kept);
    if i < |kept| {
      assert kept[i] == children[i] && kept[..i] == children[..i];
      SelectExactly(t.nodes, kept, Budget(t, parent, kept), i);
    } else {
      SelectMembers(t.nodes, kept, Budget(t, parent, kept), children[i]);
    }
  }

  /** Every admitted child is in the published tree as it was sent. */
  lemma PublishedAsSent(t: Tree, parent: string, state: string, message: string, children: seq<Node>, c: Node)
    requires IsForest(t) && Plain(children) && Merge(t, parent, state, message, children).Applied?
    requires c in Admitted(t, parent, children)
    ensures var tree := Merge(t, parent, state, message, children).tree;
            c in children && c.id in tree.nodes && NodeKept(c, tree.nodes[c.id], parent)
  {
    var out, admitted := Merge(t, parent, state, message, children), Admitted(t, parent, children);
    AdmittedIsDistinct(t, parent, children);
    var i :| 0 <= i < |admitted| && admitted[i] == c;
    InstallAt(t.nodes - out.removed, admitted, parent, i);
    StoredIsKept(c, parent);
  }

  /**
   The branch tells how the publish went: the state the plugin gave where it may
   give it and ready otherwise, its message cleaned, and a mark with both counts
   exactly when the tree ended there or a child was left out.
   */
  lemma BranchTellsThePublish(t: Tree, parent: string, state: string, message: string, children: seq<Node>)
    requires IsForest(t) && Plain(children) && Merge(t, parent, state, message, children).Applied?
    ensures var out := Merge(t, parent, state, message, children).tree;
            var shown := |Admitted(t, parent, children)|;
            && parent in out.branches
            && out.branches[parent].state == (if state in {LOADING, READY, ERROR} then state else READY)
            && Cleaned(message, out.branches[parent].error)
            && (out.branches[parent].truncated.Some? <==> Depth(t, parent) >= MAX_DEPTH || shown < |children|)
            && (out.branches[parent].truncated.Some? ==> out.branches[parent].truncated.value == Truncated(shown, |children|))
  {
    SanitizedIsCleaned(message);
    MarkTellsWhatIsShown(t, parent, children);
  }

  lemma MarkTellsWhatIsShown(t: Tree, parent: string, children: seq<Node>)
    requires Shallow(t) && |t.nodes| <= MAX_NODES_PER_PLUGIN
    ensures var shown := |Admitted(t, parent, children)|;
            Mark(t, parent, children)
            == if Depth(t, parent) >= MAX_DEPTH || shown < |children| then Some(Truncated(shown, |children|)) else None
  {
    BudgetIsThere(t, parent, Kept(children));
    SelectIsPart(t.nodes, Kept(children), Budget(t, parent, Kept(children)));
  }

  // ----- and can be acted on ---------------------------------------------------------------------

  /** The plugin sent the node with that action, for several nodes at once where several are meant. */
  predicate SentWith(c: Node, actionId: string, multi: bool) {
    exists i :: 0 <= i < |c.actions| && c.actions[i].id == actionId && (multi ==> c.actions[i].multi)
  }

  /** No branch above this one is stale or failed. */
  ghost predicate ClearAbove(t: Tree, parent: string) {
    forall b :: Under(Up(t.nodes), parent, b) && b != parent ==> !Blocked(t, b)
  }

  lemma KeptOffers(c: Node, held: Node, parent: string, actionId: string, multi: bool)
    requires NodeKept(c, held, parent) && ValidActions(c)
    ensures Offers(held, actionId, multi) <==> SentWith(c, actionId, multi)
  {
    var found := FindAction(held.actions, actionId);
    if found.Some? {
      var k :| 0 <= k < |held.actions| && held.actions[k] == found.value;
      assert ActionKept(c.actions[k], held.actions[k]);
      assert multi ==> (found.value.multi <==> c.actions[k].multi);
      if SentWith(c, actionId, multi) {
        var i :| 0 <= i < |c.actions| && c.actions[i].id == actionId && (multi ==> c.actions[i].multi);
        assert i == k;
      }
    }
  }

  /** A path from a node that was there and stays was there before. */
  lemma {:induction false} PathsStoodBefore(
    t: Tree, up': map<string, string>, parent: string, keep: set<string>, gone: set<string>, x: string, a: string, k: nat)
    requires Shallow(t) && CleanCut(Up(t.nodes), parent, keep, gone) && Regrafted(Up(t.nodes), up', parent, keep, gone)
    requires ROOT !in keep && x !in gone && (x == ROOT || x in t.nodes) && Climbs(up', x, a, k)
    ensures Climbs(Up(t.nodes), x, a, k)
    decreases k
  {
    if k > 0 {
      if x in t.nodes {
        assert RankFits(Up(t.nodes), ROOT, MAX_DEPTH, RankOf(t), x);
        PathsStoodBefore(t, up', parent, keep, gone, t.nodes[x].parentId, a, k - 1);
      }
    }
  }

  /** The way up from the published parent is the same before and after. */
  lemma WayUpStands(t: Tree, parent: string, gone: set<string>, admitted: seq<Node>, branch: Branch, b: string)
    requires IsForest(t) && Fitting(t, parent, gone, admitted)
    ensures var t' := Replaced(t, parent, gone, admitted, branch);
            Under(Up(t'.nodes), parent, b) <==> Under(Up(t.nodes), parent, b)
  {
    var t' := Replaced(t, parent, gone, admitted, branch);
    InstallRegrafts(t.nodes, parent, gone, admitted);
    ReplacedIsForest(t, parent, gone, admitted, branch);
    var up, up' := Up(t.nodes), Up(t'.nodes);
    if Under(up, parent, b) {
      var k: nat :| Climbs(up, parent, b, k);
      PathsStand(up, up', parent, IdSet(admitted), gone, parent, b, k);
    }
    if Under(up', parent, b) {
      var k: nat :| Climbs(up', parent, b, k);
      PathsStoodBefore(t, up', parent, IdSet(admitted), gone, parent, b, k);
    }
  }

  /** Above the published parent, what blocked before blocks after. */
  lemma BlockedAbove(t: Tree, t': Tree, parent: string, gone: set<string>, keep: set<string>, branch: Branch, b: string)
    requires CleanCut(Up(t.nodes), parent, keep, gone) && t.children.Keys == t.branches.Keys
    requires BranchReplaced(t, t', parent, gone, branch)
    requires Under(Up(t.nodes), parent, b) && b != parent
    ensures Blocked(t', b) <==> Blocked(t, b)
  {
    var k: nat :| Climbs(Up(t.nodes), parent, b, k);
    WayUpIsSpared(Up(t.nodes), parent, keep, gone, parent, b, k);
  }

  lemma ReplacedPath(t: Tree, t': Tree, parent: string, gone: set<string>, admitted: seq<Node>, branch: Branch)
    requires IsForest(t) && Fitting(t, parent, gone, admitted) && t' == Replaced(t, parent, gone, admitted, branch)
    ensures PathClear(t', parent) <==> !Blocks(branch.state) && ClearAbove(t, parent)
  {
    ReplacedBranches(t, parent, gone, admitted, branch);
    UnderItself(Up(t.nodes), parent);
    forall b
      ensures Under(Up(t'.nodes), parent, b) <==> Under(Up(t.nodes), parent, b)
      ensures Under(Up(t.nodes), parent, b) && b != parent ==> (Blocked(t', b) <==> Blocked(t, b))
    {
      WayUpStands(t, parent, gone, admitted, branch, b);
      if Under(Up(t.nodes), parent, b) && b != parent {
        BlockedAbove(t, t', parent, gone, IdSet(admitted), branch, b);
      }
    }
    assert Blocked(t', parent) <==> Blocks(branch.state);
  }

  /** Whether the published parent's children can be acted on, told by the tree before and the state given. */
  lemma PublishedPath(t: Tree, parent: string, state: string, message: string, children: seq<Node>)
    requires IsForest(t) && Plain(children) && Merge(t, parent, state, message, children).Applied?
    ensures PathClear(Merge(t, parent, state, message, children).tree, parent) <==> state != ERROR && ClearAbove(t, parent)
  {
    var out := Merge(t, parent, state, message, children);
    PublishFits(t, parent, state, message, children);
    ReplacedPath(t, out.tree, parent, out.removed, Admitted(t, parent, children), NewBranch(t, parent, state, message, children));
  }

  lemma {:induction false} WayUpIsSpared<K>(up: map<K, K>, parent: K, keep: set<K>, gone: set<K>, x: K, a: K, k: nat)
    requires CleanCut(up, parent, keep, gone) && x !in gone && Climbs(up, x, a, k)
    ensures a !in gone
    decreases k
  {
    if k > 0 {
      WayUpIsSpared(up, parent, keep, gone, up[x], a, k - 1);
    }
  }

  /**
   End to end: nodes a snapshot brought in can be invoked for an action exactly
   when the plugin sent every one of them with it - for several at once where
   several are selected - it did not publish the branch as failed, and no branch
   above is stale or failed.
   */
  lemma PublishedIsInvocable(
    t: Tree, parent: string, state: string, message: string, children: seq<Node>, chosen: seq<Node>, actionId: string)
    requires IsForest(t) && ValidSnapshot(children) && Plain(children) && Merge(t, parent, state, message, children).Applied?
    requires forall k :: 0 <= k < |chosen| ==> chosen[k] in Admitted(t, parent, children)
    ensures Invocable(Merge(t, parent, state, message, children).tree, Ids(chosen), actionId)
            <==> && 1 <= |chosen| <= MAX_NODES_PER_INVOKE
                 && (forall k :: 0 <= k < |chosen| ==> SentWith(chosen[k], actionId, |chosen| > 1))
                 && state != ERROR && ClearAbove(t, parent)
  {
    var t' := Merge(t, parent, state, message, children).tree;
    forall k | 0 <= k < |chosen|
      ensures HeldAs(t', parent, chosen[k], actionId, |chosen| > 1)
    {
      PublishedAsSent(t, parent, state, message, children, chosen[k]);
      SentValid(children, chosen[k]);
      KeptOffers(chosen[k], t'.nodes[chosen[k].id], parent, actionId, |chosen| > 1);
    }
    PublishedPath(t, parent, state, message, children);
    HeldIsInvocable(t', parent, chosen, actionId);
  }

  lemma SentValid(children: seq<Node>, c: Node)
    requires ValidSnapshot(children) && c in children
    ensures ValidActions(c)
  {
    ValidSnapshotMeans(children);
  }

  ghost predicate HeldAs(t: Tree, parent: string, c: Node, actionId: string, multi: bool) {
    && c.id in t.nodes && t.nodes[c.id].parentId == parent
    && (Offers(t.nodes[c.id], actionId, multi) <==> SentWith(c, actionId, multi))
  }

  lemma HeldIsInvocable(t: Tree, parent: string, chosen: seq<Node>, actionId: string)
    requires forall k :: 0 <= k < |chosen| ==> HeldAs(t, parent, chosen[k], actionId, |chosen| > 1)
    ensures Invocable(t, Ids(chosen), actionId)
            <==> && 1 <= |chosen| <= MAX_NODES_PER_INVOKE
                 && (forall k :: 0 <= k < |chosen| ==> SentWith(chosen[k], actionId, |chosen| > 1))
                 && PathClear(t, parent)
  {
    var ids := Ids(chosen);
    if Invocable(t, ids, actionId) {
      forall k | 0 <= k < |chosen|
        ensures SentWith(chosen[k], actionId, |chosen| > 1)
      {
        assert ids[k] == chosen[k].id;
      }
    }
  }
}
