/**
 The data of a plugin-drawn discovery tree: nodes, branches, the pinned limits,
 and the checks one published snapshot passes before it is stored
 (internal/domain/discovery).
 */
module Discovery {
  import opened Basics

  const MAX_DEPTH: nat := 8
  const MAX_CHILDREN_PER_PUBLISH: nat := 500
  const MAX_NODES_PER_PLUGIN: nat := 2000
  const MAX_NODES_PER_INVOKE: nat := 200
  const MAX_ID_LEN: nat := 256
  const MAX_LABEL_LEN: nat := 128
  const MAX_CONFIRM_LEN: nat := 256
  const MAX_TOOLTIP_LEN: nat := 256
  const MAX_ACTIONS_PER_NODE: nat := 16

  const KIND_GROUP := "group"
  const KIND_INSTANCE := "instance"

  const LOADING := "loading"
  const READY := "ready"
  const ERROR := "error"
  const STALE := "stale"

  datatype Action = Action(id: string, caption: string, confirm: string, multi: bool, role: string)

  datatype Status = Status(tone: string, color: string, tooltip: string)

  datatype Node = Node(
    id: string, parentId: string, kind: string, caption: string, iconId: string, order: int,
    status: Option<Status>, actions: seq<Action>, defaultActionId: string)

  datatype Truncated = Truncated(shown: nat, total: nat)

  datatype Branch = Branch(state: string, error: string, truncated: Option<Truncated>)

  /** A branch the host will not let an action through. */
  predicate Blocks(state: string) { state == STALE || state == ERROR }

  predicate PluginMayPublish(state: string) { state == LOADING || state == READY || state == ERROR }

  function HostAccepted(state: string): string {
    if PluginMayPublish(state) then state else READY
  }

  // ----- sanitising ---------------------------------------------------------------

  /** A control character (C0, DEL, C1) or a bidirectional override. */
  predicate Stripped(c: char) {
    var code := c as int;
    || code < 0x20 || 0x7f <= code <= 0x9f
    || 0x202a <= code <= 0x202e || 0x2066 <= code <= 0x2069
  }

  function SanitizeText(s: string): string {
    if s == [] then []
    else (if Stripped(s[0]) then [] else [s[0]]) + SanitizeText(s[1..])
  }

  function SanitizeActions(actions: seq<Action>): (r: seq<Action>)
    ensures |r| == |actions|
    ensures forall i :: 0 <= i < |r| ==> r[i].id == actions[i].id && r[i].multi == actions[i].multi
  {
    seq(|actions|, i requires 0 <= i < |actions| =>
      actions[i].(caption := SanitizeText(actions[i].caption), confirm := SanitizeText(actions[i].confirm)))
  }

  function SanitizeStatus(status: Option<Status>): Option<Status> {
    if status.None? then None else Some(status.value.(tooltip := SanitizeText(status.value.tooltip)))
  }

  function SanitizeNode(node: Node): (r: Node)
    ensures r.id == node.id && r.kind == node.kind && r.order == node.order && r.iconId == node.iconId
  {
    node.(caption := SanitizeText(node.caption), status := SanitizeStatus(node.status), actions := SanitizeActions(node.actions))
  }

  // ----- validating one snapshot ----------------------------------------------------

  predicate ValidAction(action: Action) {
    && action.id != "" && |action.id| <= MAX_ID_LEN
    && 0 < |SanitizeText(action.caption)| <= MAX_LABEL_LEN
    && |SanitizeText(action.confirm)| <= MAX_CONFIRM_LEN
    && (action.role == "" || action.role == "delete")
  }

  predicate ValidActions(node: Node) {
    var actions := node.actions;
    && |actions| <= MAX_ACTIONS_PER_NODE
    && (forall i :: 0 <= i < |actions| ==> ValidAction(actions[i]))
    && (forall i, j :: 0 <= i < j < |actions| ==> actions[i].id != actions[j].id)
    && (forall i, j :: 0 <= i < j < |actions| && actions[i].role != "" ==> actions[i].role != actions[j].role)
    && (node.defaultActionId != "" ==> exists i :: 0 <= i < |actions| && actions[i].id == node.defaultActionId)
  }

  predicate ValidTone(tone: string) {
    tone == "ok" || tone == "warn" || tone == "error" || tone == "busy" || tone == "neutral" || tone == "unknown"
  }

  predicate HexDigit(c: char) { '0' <= c <= '9' || 'a' <= c <= 'f' || 'A' <= c <= 'F' }

  /** Empty, or a number sign and six hexadecimal digits. */
  predicate ValidColor(color: string) {
    color == "" || (|color| == 7 && color[0] == '#' && forall i :: 1 <= i < 7 ==> HexDigit(color[i]))
  }

  predicate ValidStatus(status: Option<Status>) {
    status.Some? ==>
      && ValidTone(status.value.tone) && ValidColor(status.value.color)
      && |SanitizeText(status.value.tooltip)| <= MAX_TOOLTIP_LEN
  }

  predicate ValidNode(node: Node) {
    && node.id != "" && |node.id| <= MAX_ID_LEN
    && (node.kind == KIND_GROUP || node.kind == KIND_INSTANCE)
    && 0 < |SanitizeText(node.caption)| <= MAX_LABEL_LEN
    && ValidStatus(node.status)
    && ValidActions(node)
  }

  predicate Distinct(children: seq<Node>) {
    forall i, j :: 0 <= i < j < |children| ==> children[i].id != children[j].id
  }

  /** Every node is valid on its own, and its id new among those listed before it. */
  predicate ValidSnapshot(children: seq<Node>) {
    if children == [] then true
    else
      var n := |children| - 1;
      ValidSnapshot(children[..n]) && ValidNode(children[n]) && children[n].id !in IdSet(children[..n])
  }

  function Ids(children: seq<Node>): (ids: seq<string>)
    ensures |ids| == |children|
    ensures forall i :: 0 <= i < |ids| ==> ids[i] == children[i].id
  {
    seq(|children|, i requires 0 <= i < |children| => children[i].id)
  }

  function IdSet(children: seq<Node>): set<string> {
    set i | 0 <= i < |children| :: children[i].id
  }

  predicate AllValid(children: seq<Node>) {
    forall i :: 0 <= i < |children| ==> ValidNode(children[i])
  }

  lemma DistinctSnoc(children: seq<Node>, n: nat)
    requires |children| == n + 1
    ensures Distinct(children) <==> Distinct(children[..n]) && children[n].id !in IdSet(children[..n])
  {
    if Distinct(children[..n]) && children[n].id !in IdSet(children[..n]) {
      forall i | 0 <= i < n ensures children[i].id != children[n].id {
        assert children[..n][i].id in IdSet(children[..n]);
      }
      forall i, j | 0 <= i < j < n ensures children[i].id != children[j].id {
        assert children[..n][i].id != children[..n][j].id;
      }
    }
  }

  lemma AllValidSnoc(children: seq<Node>, n: nat)
    requires |children| == n + 1
    ensures AllValid(children) <==> AllValid(children[..n]) && ValidNode(children[n])
  {
    if AllValid(children[..n]) {
      forall i | 0 <= i < n ensures ValidNode(children[i]) {
        assert children[..n][i] == children[i];
      }
    }
  }

  lemma {:induction false} ValidSnapshotMeans(children: seq<Node>)
    ensures ValidSnapshot(children) <==> AllValid(children) && Distinct(children)
    decreases |children|
  {
    if children != [] {
      var n := |children| - 1;
      ValidSnapshotMeans(children[..n]);
      DistinctSnoc(children, n);
      AllValidSnoc(children, n);
    }
  }

  lemma IdSetSnoc(ns: seq<Node>)
    requires ns != []
    ensures IdSet(ns) == IdSet(ns[..|ns| - 1]) + {ns[|ns| - 1].id}
  {
    var n := |ns| - 1;
    assert forall i :: 0 <= i < n ==> ns[..n][i] == ns[i];
    assert ns[n].id in IdSet(ns);
  }

  method ValidatePublish(children: seq<Node>) returns (ok: bool)
    ensures ok <==> AllValid(children) && Distinct(children)
    ensures ok <==> ValidSnapshot(children)
  {
    var seen: set<string> := {};
    ValidSnapshotMeans(children);
    for i := 0 to |children|
      invariant ValidSnapshot(children[..i]) && seen == IdSet(children[..i])
    {
      assert children[..i + 1][..i] == children[..i];
      ValidPrefix(children, i + 1);
      if !ValidNode(children[i]) || children[i].id in seen {
        return false;
      }
      IdSetSnoc(children[..i + 1]);
      seen := seen + {children[i].id};
    }
    assert children[..|children|] == children;
    return true;
  }

  lemma {:induction false} ValidPrefix(children: seq<Node>, i: nat)
    requires i <= |children|
    ensures ValidSnapshot(children) ==> ValidSnapshot(children[..i])
    decreases |children|
  {
    if i < |children| {
      var n := |children| - 1;
      ValidPrefix(children[..n], i);
      assert children[..n][..i] == children[..i];
    } else {
      assert children[..i] == children;
    }
  }

  /** The first MAX_CHILDREN_PER_PUBLISH children. */
  function Kept(children: seq<Node>): (kept: seq<Node>)
    ensures kept <= children && |kept| <= MAX_CHILDREN_PER_PUBLISH
  {
    if |children| <= MAX_CHILDREN_PER_PUBLISH then children else children[..MAX_CHILDREN_PER_PUBLISH]
  }

  function KeptMark(children: seq<Node>): Option<Truncated> {
    if |children| <= MAX_CHILDREN_PER_PUBLISH then None
    else Some(Truncated(MAX_CHILDREN_PER_PUBLISH, |children|))
  }
}
