# Verified model of the xquakshell core

xquakshell is a desktop shell for SSH and plugin sessions. This project models the parts of it where
correctness is hard to see from one function: the discovery trees that plugins publish into, the
protocols that keep plugins told and authorised, the sync of plugin files, the recovery key, the
unlock delays, the cancel registry, team credentials, trust prompts and embed tunnels. Each part is
Dafny code with its promises proved for every input or every run.

Code that changes state in place is a class whose methods are tied to a value-level step function;
whole-run properties are then proved about runs of those steps. Where calls of the program interleave
with one another between two locks (observer, leader reconciliation, trust prompts), the steps between
the locks are the events of a state machine and every interleaving is a run.

| file | part |
|---|---|
| `Discovery`, `SiblingOrder`, `Ancestry`, `Forest` | snapshot data and validation, sibling order, parent links, the forest invariant |
| `TreePublish`, `PublishLaws`, `PublishContents`, `DiscoveryTree` | one publish as a set-level replace, its laws, what a child is stored as, and the loops that carry it out |
| `StoreRuns`, `StoreLaws`, `DiscoveryStore`, `DiscoveryPublish` | runs of store operations and what they leave, the store itself, and the way of a publish into it |
| `DiscoveryInvoke`, `DiscoverySnapshot` | when an action is accepted; the walk that lists a tree |
| `Observer`, `Leader`, `LeaderLine`, `Pace` | telling plugins what is observed, authorising them, who leads, rate limits |
| `PluginPlan`, `PluginKey`, `PluginPass` | three-way merge of plugin files, many devices, one pass |
| `RecoveryKey`, `Throttle`, `ShellQuote` | base-32 key, unlock delay, quoting of a command line |
| `CancelRegistry`, `OperationReporter` | abort actions with their marks, one terminal event |
| `CredentialKey`, `Credentials`, `CredentialAddress` | the key of a binding, team bindings, and the addresses they may follow |
| `EmbedTunnel`, `EmbedLaws` | embed tokens and tunnels, and what tokens and frames are told |
| `PeerTrust`, `PeerTrustAnswers`, `PeerTrustScreen` | trust decisions and what is stored, each call end to end, and what the user sees of them |
| `Basics` | what several parts share |

## What turned out different from the program's own comments

- A publish that is ignored because its parent is unknown leaves an empty tree behind where there was
  none (`StoreRuns.RefusedPublishIsNearlyInvisible`, `StoreRuns.IgnoredPublishLeavesATree`).
- The publish limiter's budget of 20 per second is per window: a sliding second can see 39, and never
  more (`Pace.AnySecondAdmitsFewerThanTwice`, `Pace.TheBoundIsReached`).
- `MarkPluginFailed` compares the stored, sanitised message with the raw one, so a message that
  sanitising changes is reported as a change every time (`StoreRuns.RepeatedFailure`, `StoreRuns.ControlCharacterCountsAgain`).
- Cancelling an id that is still marked keeps the old place of its mark, which the cap can then evict
  early (`CancelRegistry.StaleMarkIsEvictedEarly`).
- A session that brings the protocol but does not lead starts no reconciliation and no broadcast, and
  neither does a change of the installed plugins, so plugins stay unauthorised and untold
  (`Leader.SilentIsMissed`, `Leader.LateProtocolIsMissed`, `Observer.LateAddresseeIsNotTold`).
- The unlock delay binds only attempts that wait for one another: nothing is held between a check and
  the failure it leads to, so attempts started together all pass (`Throttle.VolleyIsLetThrough`); with
  at most k in flight the delay holds per k attempts (`Throttle.GuessingIsSlow`).
- A session id reported under a second connection leaves lines and index disagreeing
  (`Leader.Table.SessionReady`, `Leader.ReportUnderTwo`).
- For policies other than the two shipped ones the wrapped shift can give a delay below the promised
  one (`Throttle.DelayIsAsPromised`, `Throttle.OverflowCanShortenTheDelay`).
- Re-registering an embed session drops the old entry's browser connections without closing them
  (`EmbedTunnel.OrphansAreNeverClosed`), and attaching makes a session inactive if its tab was never
  reported active (`EmbedTunnel.AttachFollowsTheTab`).
- A path that is no longer declared is reported in conflict when its mirror entry and its record
  differ, although nothing of it is pushed or written (`PluginPass.PathSettles`,
  `PluginPass.UndeclaredIsReportedInConflict`).
- A trust question re-asked after the connection record changed announces the new subject beside the
  old question (`PeerTrustScreen.RepointedQuestionKeepsOldSubject`).
- Raising and rejecting a trust question each take two writes; what comes between can draw a ready
  session back or strand a question, exactly when `PeerTrustScreen.DrawnBackMeansRaisedBefore` and
  `PeerTrustScreen.StrandedMeansFailedSince` say (`PeerTrustScreen.LateMarkReachesAReadySession`,
  `PeerTrustScreen.RejectCanStrandAQuestion`).
- A binding's joined key names one user exactly while its vault, connection and user ids hold no slash,
  which nothing enforces on what other members write (`CredentialKey.KeyIsAloneIffPlain`).
- A connection deleted on this device, before that deletion is synced, can return from another account
  at another address without suspending the member's binding
  (`CredentialAddress.UnsyncedDeletionLetsTheAddressChange`); nothing else gets past the suspension
  (`CredentialAddress.CredentialFollowsOwnAddressOnly`).

## Model

| member | source | states |
|---|---|---|
| `Discovery.ValidatePublish` | internal/domain/discovery/validate.go:31-139 | a snapshot is accepted exactly when every node is valid - id, kind, label, status, actions, roles - and ids are distinct |
| `Discovery.ValidSnapshotMeans` | internal/domain/discovery/validate.go:31-44 | the scan with its set of seen ids accepts exactly the snapshots of valid nodes with pairwise distinct ids |
| `SiblingOrder.SortedInOrder` | internal/usecase/discovery_tree.go:96-107 | sorting gives a strictly ordered listing of the same ids |
| `SiblingOrder.OneOrderlyListing` | internal/usecase/discovery_tree.go:96-107 | two orderly listings of the same ids are equal: order is a function of the stored nodes |
| `Forest.OrderFollowsNodes` | internal/usecase/discovery_tree.go:96-107 | two linked trees with the same nodes list every branch alike |
| `Forest.DepthIsTheClimb` | internal/usecase/discovery_tree.go:40-54 | depth is the length of the one unbounded climb to the root, whatever ranking witnesses the bound |
| `Ancestry.CutIsClean` | internal/usecase/discovery_store.go:173-186 | dropping the unlisted children with all below them never removes the parent, a kept child or an ancestor, and leaves no orphan |
| `Ancestry.RegraftedIsRanked` | internal/usecase/discovery_store.go:188-212 | removing below a node and hanging new children there keeps the links acyclic and within the depth bound |
| `Ancestry.RegraftedIsListed` | internal/usecase/discovery_store.go:188-212 | the same replacement keeps parent links and child listings in agreement both ways |
| `Ancestry.KidsCover` | internal/usecase/discovery_tree.go:59-69 | what is below a node is the node and, disjointly, what is below each of its children |
| `DiscoveryTree.Plot.DepthOf` | internal/usecase/discovery_tree.go:40-54 | the bounded walk up gives the true depth: its bound is never met |
| `DiscoveryTree.Plot.Subtree` | internal/usecase/discovery_tree.go:59-69 | the worklist ends and lists a node and each descendant exactly once |
| `DiscoveryTree.Plot.Vanishing` | internal/usecase/discovery_store.go:173-186 | the list holds, once each, exactly the old children not kept and all below them |
| `DiscoveryTree.Plot.RemoveVanished` | internal/usecase/discovery_store.go:188-196 | exactly those ids leave nodes, children and branches, and are reported |
| `DiscoveryTree.Plot.Admit` | internal/usecase/discovery_store.go:135-169 | the admitted children and the truncation mark are those of the set-level rule for length, depth and budget |
| `DiscoveryTree.Plot.TakeWithin` | internal/usecase/discovery_store.go:135-169 | known children always pass, new ones while the budget lasts |
| `DiscoveryTree.Plot.Write` | internal/usecase/discovery_store.go:198-212 | the three maps after writing one branch; `PublishContents.PublishedAsSent` says what each node in them is |
| `DiscoveryTree.Plot.FindsMoved` | internal/usecase/discovery_store.go:84-90 | reports a move exactly when a listed child already lives under another parent |
| `DiscoveryTree.Plot.MergeSnapshot` | internal/usecase/discovery_store.go:64-99 | the loops carry out the set-level publish, keep the forest and report what left, or refuse and change nothing; the laws of `PublishLaws` and `PublishContents` are about that publish |
| `DiscoveryTree.Plot.SetBranchState` | internal/usecase/discovery_store.go:220-233 | one known branch gets the state, nothing else changes |
| `DiscoveryTree.Plot.MarkStale` | internal/usecase/discovery_store.go:239-278 | every branch goes stale; a change is reported exactly when one was not |
| `DiscoveryTree.Plot.MarkFailed` | internal/usecase/discovery_store.go:288-306 | every branch that does not already show the message fails with it; a change is reported exactly when there was one |
| `TreePublish.SelectIsPart` | internal/usecase/discovery_store.go:135-169 | the new nodes selected are within the budget, and a child is dropped only when the budget is spent |
| `TreePublish.SelectMembers` | internal/usecase/discovery_store.go:135-169 | a listed child already stored is always selected |
| `PublishLaws.SelectIsFilter` | internal/usecase/discovery_store.go:135-169 | the selection is the listing with some children left out, in the order listed |
| `TreePublish.BudgetIsExact` | internal/usecase/discovery_store.go:135-169 | what vanishes is the same for the kept and for the admitted children, so the budget counted beforehand is exact |
| `TreePublish.ReplacedIsForest` | internal/usecase/discovery_store.go:188-212 | a fitting replacement of one branch of a forest is a forest |
| `PublishLaws.PublishFits` | internal/usecase/discovery_store.go:64-99 | whatever an accepted publish admits fits: no duplicates, no moves, within depth and node cap |
| `PublishLaws.PublishKeepsForest` | internal/usecase/discovery_store.go:64-99 | every accepted publish keeps the forest invariant |
| `PublishLaws.RemovedIsWhatWasDropped` | internal/usecase/discovery_store.go:84-99 | what is removed is the children no longer listed with all below them; nothing is lost to the budget |
| `PublishLaws.RestOfTreeStands` | internal/usecase/discovery_store.go:64-99 | removed is exactly old nodes minus new nodes, and no node, listing or branch outside the published one changes |
| `PublishLaws.OtherBranchKept` | internal/usecase/discovery_store.go:198-212 | no other branch is created or changes state |
| `PublishLaws.PublishTwiceIsOnce` | internal/usecase/discovery_store.go:64-212 | the same snapshot again changes nothing and removes nothing, even when truncated or over budget |
| `PublishContents.SanitizedIsCleaned` | internal/domain/discovery/sanitize.go:37-50 | a cleaned text is the text at exactly the places that hold no control character and no bidirectional override, in order |
| `PublishContents.PublishedAsSent` | internal/usecase/discovery_store.go:198-212 | after every applied publish each admitted child is in the tree with its id, kind, icon, order and default action, under the published parent, its status with tone and color, as many actions with the same id, multi and role at the same places, and its texts cleaned |
| `PublishContents.BranchTellsThePublish` | internal/usecase/discovery_store.go:64-169 | the branch shows the state given where a plugin may give it and ready otherwise, the message cleaned, and a mark with both counts exactly when the depth is used up or a child was left out |
| `PublishContents.AdmittedExactly` | internal/usecase/discovery_store.go:135-169 | where depth is left, exactly the children among the first 500 that are stored already, and as many new ones from the front as there is room for once the dropped nodes are gone |
| `PublishContents.PublishedIsInvocable` | internal/usecase/discovery_invoke.go:149-211 | nodes a snapshot brought in can be invoked for an action exactly when each was sent with it, for several at once where several are chosen, the branch was not published as failed, and no branch above is stale or failed |
| `StoreRuns.StepKeepsForest` | internal/usecase/discovery_store.go:64-341 | every store operation keeps every tree a forest |
| `StoreRuns.Run` | internal/usecase/discovery_store.go:64-341 | over every run of store operations each tree is linked, acyclic, within depth and within the node cap |
| `StoreRuns.RefusedPublishIsNearlyInvisible` | internal/usecase/discovery_store.go:64-99 | a publish not applied changes nothing exactly when it was malformed or a tree was there; otherwise an empty tree appears |
| `StoreRuns.IgnoredPublishLeavesATree` | internal/usecase/discovery_store.go:64-99 | a run in which an ignored snapshot leaves an empty tree |
| `StoreRuns.OpensOnlyByConfirmation` | internal/usecase/discovery_store.go:64-306 | only an accepted publish of a branch or a host reset of it lets actions through again |
| `StoreRuns.OpenedMeansConfirmed` | internal/usecase/discovery_store.go:64-306 | over a run, a branch that became open was confirmed at some step of it |
| `StoreRuns.StaleUntilConfirmed` | internal/usecase/discovery_invoke.go:149-211 | after a handover an action is accepted only once every branch on its path was republished or reset since |
| `StoreRuns.HandoverBlocks` | internal/usecase/discovery_store.go:239-306 | a handover, a crash and giving up on a plugin each block every branch |
| `StoreRuns.RepeatedFailure` | internal/usecase/discovery_store.go:288-306 | marking the same failure again reports no change exactly when sanitising leaves the message as it is or the first call had nothing to do |
| `StoreRuns.ControlCharacterCountsAgain` | internal/usecase/discovery_store.go:288-306 | a run in which marking the same failure again counts as a change and changes nothing |
| `StoreLaws.BranchStep` | internal/usecase/discovery_store.go:64-306 | after any step a branch shows the state and text the operation spoke of it, or those it showed before |
| `StoreLaws.HostKeepsNodes` | internal/usecase/discovery_store.go:220-341 | the host's own operations keep every node, listing and branch, but for clearing |
| `StoreLaws.BranchShowsLastWord` | internal/usecase/discovery_store.go:64-306 | over every run each branch shows the state of the last accepted publish of it, reset, handover or failure that concerned it |
| `StoreLaws.PublishIsAnswered` | internal/usecase/discovery_store.go:64-99 | applied, ignored, or refused as malformed, as below an instance, or for a child that lives elsewhere: each exactly when |
| `StoreLaws.NodesNeverMove` | internal/usecase/discovery_store.go:84-90 | no operation changes the parent of a node that stays |
| `StoreLaws.EveryNodeIsProper` | internal/domain/discovery/validate.go:31-139 | over every run every node in a tree has ids and texts within the limits and free of control characters and overrides, a known kind, tone and role, distinct actions, at most one that deletes, and a default action that exists |
| `StoreLaws.ListingsAscend` | internal/usecase/discovery_tree.go:96-107 | in every tree siblings are listed by order number, then caption, then id, texts compared at their first difference |
| `DiscoveryStore.Store.ApplySnapshot` | internal/usecase/discovery_store.go:64-99 | the pair's tree takes the publish whose laws are in `PublishLaws`, `PublishContents` and `StoreLaws`, every other tree stands, and the caller learns exactly what left or why it was refused |
| `DiscoveryStore.Store.SetBranchState` | internal/usecase/discovery_store.go:220-233 | the pair's tree takes the step, every other tree stands |
| `DiscoveryStore.Store.MarkConnectionStale` | internal/usecase/discovery_store.go:239-248 | every tree of the connection goes stale, no other tree changes |
| `DiscoveryStore.Store.MarkPluginStale` | internal/usecase/discovery_store.go:261-278 | the pair's tree goes stale; a change is reported exactly when a branch was not |
| `DiscoveryStore.Store.MarkPluginFailed` | internal/usecase/discovery_store.go:288-306 | the pair's branches fail; a change is reported exactly when there was one |
| `DiscoveryStore.Store.ClearConnection` | internal/usecase/discovery_store.go:311-315 | exactly the trees of the connection are gone |
| `DiscoveryStore.Store.ClearPlugin` | internal/usecase/discovery_store.go:322-341 | the pair's tree is gone and all its node ids are returned |
| `DiscoveryStore.Store.CheckAction` | internal/usecase/discovery_invoke.go:149-167 | accepted exactly when the pair has a tree and the selection is invocable in it |
| `DiscoveryPublish.Router.Retain` | internal/usecase/discovery_observer.go:113-132 | exactly the removed ids leave the connection's set, and a change is reported exactly when one was watched |
| `DiscoveryPublish.Router.Apply` | internal/usecase/discovery_publish.go:75-161 | a publish reaches the store exactly when its session leads, the budget admits it and the node is observed; then one tree takes it, exactly the ids that left it are no longer observed, and the node is redrawn unless it was refused; otherwise only the count changes |
| `DiscoveryInvoke.FindAction` | internal/usecase/discovery_invoke.go:213-220 | finds an action exactly when one with the id is offered |
| `DiscoveryInvoke.CheckBranchActionable` | internal/usecase/discovery_invoke.go:199-211 | the bounded walk up answers for the unbounded path: clear exactly when no branch up to the root is stale or failed |
| `DiscoveryInvoke.HasAll` | internal/usecase/discovery_tree.go:111-118 | true exactly when every id is stored |
| `DiscoveryInvoke.CheckSelection` | internal/usecase/discovery_invoke.go:169-191 | passes exactly when all are siblings and each offers the action, for several when there are several |
| `DiscoveryInvoke.CheckAction` | internal/usecase/discovery_invoke.go:149-211 | accepts exactly when the size is right, all nodes exist, are siblings, offer the action, and the whole path is clear; each refusal names its cause |
| `DiscoverySnapshot.Ancestors` | internal/usecase/discovery_tree.go:74-88 | the bounded walk collects every proper ancestor, nearest first |
| `DiscoverySnapshot.ResolveIcon` | internal/domain/discovery/icon_resolve.go:14-24 | a node's own icon, else the nearest ancestor's, else none |
| `DiscoverySnapshot.Walk` | internal/usecase/discovery_snapshot.go:69-84 | the recursive walk ends and lists what is below a node once each, parents first, siblings in order |
| `DiscoverySnapshot.ViewNodes` | internal/usecase/discovery_snapshot.go:69-84 | every stored node exactly once with its inherited icon, after its parent, siblings in order |
| `Observer.StepKeepsInv` | internal/usecase/discovery_observer.go:96-245 | every step of every thread, and any change of the addressees, keeps: one holder of the gate, captures are true past sets, payloads ordered, the newest version owed, whoever is aimed at served, whoever knows the newest aimed at |
| `Observer.EveryRunKeepsInv` | internal/usecase/discovery_observer.go:96-245 | the invariant holds at every point of every interleaving |
| `Observer.SetIsLastSet` | internal/usecase/discovery_observer.go:96-132 | at every point of every run the observed set is the ids of the last SetObserved, or none, less what every later Retain removed |
| `Observer.VersionStep` | internal/usecase/discovery_observer.go:96-132 | every version was the newest at some step, and its set is what the calls had left observed there |
| `Observer.RunningTold` | internal/usecase/discovery_observer.go:174-205 | a plugin runs exactly when it was started and not stopped since |
| `Observer.TargetsTold` | internal/usecase/discovery_observer.go:211-245 | a plugin is addressable exactly when the last change of the addressees names it |
| `Observer.DeliveriesNeverGoBack` | internal/usecase/discovery_observer.go:211-245 | of two payloads the later carries no older version, and each carries what the calls had left observed at a step where its version was the newest |
| `Observer.HistoryTold` | internal/usecase/discovery_observer.go:174-245 | who is aimed at, had its turn, was replayed to or newly started, told by the events of the run alone |
| `Observer.QuietMeansDelivered` | internal/usecase/discovery_observer.go:96-245 | once all is quiet the newest version is sent, and for every running plugin that was addressable at the last live broadcast since its start, or when its start was served later, the last payload that reached it is the set last handed in, less what was removed since |
| `Observer.DeliveredMeansTurned` | internal/usecase/discovery_observer.go:174-245 | once all is quiet a running plugin knows the newest set exactly when the last live broadcast had its turn for it as it runs now, or a replay reached it since the set changed |
| `Observer.DeliveredMeansAddressed` | internal/usecase/discovery_observer.go:174-245 | a plugin that did not start since the last live broadcast knows the newest set exactly when it was addressable at that broadcast or a replay reached it since the set changed |
| `Observer.LateAddresseeIsNotTold` | internal/usecase/discovery_observer.go:211-245 | a run in which a plugin becomes addressable after the last broadcast, all is quiet, and it was never told |
| `Observer.LiveLeaderLosesNothing` | internal/usecase/discovery_observer.go:211-245 | in a run that always finds a leader no delivery is dropped |
| `Leader.Table.SessionReady` | internal/usecase/discovery_leader.go:118-150 | the session joins the back of its line once, a reconciliation is due exactly when it leads, and lines and index go on agreeing exactly when it was not on file under another connection |
| `Leader.Table.SessionClosed` | internal/usecase/discovery_leader.go:311-360 | the session leaves its line, an empty line goes, lines and index go on agreeing, and a reconciliation is due exactly when the leading session changed |
| `Leader.ReportUnderTwo` | internal/usecase/discovery_leader.go:118-150 | the same session reported under two connections leaves lines and index disagreeing |
| `Leader.StepKeepsInv` | internal/usecase/discovery_leader.go:187-270 | every step keeps the books balanced and every outdated decision followed by a waiting reconciliation |
| `Leader.EveryRunKeepsInv` | internal/usecase/discovery_leader.go:118-360 | the invariant holds at every point of every interleaving |
| `Leader.GrantsAreConserved` | internal/usecase/discovery_leader.go:187-248 | whenever the gate is free, grants minus releases are exactly what is on record |
| `Leader.QuietGrantsNameTheLeader` | internal/usecase/discovery_leader.go:187-270 | once nothing is pending every grant names the current leading session |
| `Leader.OutdatedMeansSilent` | internal/usecase/discovery_leader.go:118-270 | at any point the decision is what is wanted, a reconciliation has yet to make one, or protocol or plugins changed silently after they were last read |
| `Leader.DesiredMeansEntitled` | internal/usecase/discovery_leader.go:254-270 | an authorisation is wanted exactly when its session leads, the line's protocol is known and has plugins, and its plugin is one of them |
| `Leader.LostMeansFailed` | internal/usecase/discovery_leader.go:187-248 | a plugin counts as missed exactly when its authorisation or start was refused after the plugins were last read |
| `Leader.OnlyUnwantedIsReleased` | internal/usecase/discovery_leader.go:187-248 | a step releases an authorisation only if it is not wanted or its plugin failed to start, and grants one only if it is wanted |
| `Leader.QuietGrantsAreWanted` | internal/usecase/discovery_leader.go:187-270 | once quiet, with no silent change of protocol or plugins since each was last read: every plugin listed for the line's protocol is authorised for the leading session unless its authorisation or start was refused since, and nothing else is authorised |
| `Leader.SilentIsMissed` | internal/usecase/discovery_leader.go:118-150 | from a quiet and current point an event leads to a quiet point that is not current exactly when it is silent: it keeps the leader and changes what is wanted |
| `Leader.LateProtocolIsMissed` | internal/usecase/discovery_leader.go:118-150 | a run in which a session that does not lead brings the protocol, all is quiet, and nothing is authorised |
| `LeaderLine.LongestReadyLeads` | internal/usecase/discovery_leader.go:118-150 | in every run the leading session is the one that has been ready longest without closing, and there is none exactly when nobody is ready |
| `LeaderLine.ProtocolIsLastReported` | internal/usecase/discovery_leader.go:118-150 | the line's protocol is the one last reported since somebody was always ready |
| `Pace.PublishLimiter.Allow` | internal/usecase/discovery_rate_limit.go:55-68 | the key's window moves by one call, every other key's stands |
| `Pace.WindowTellsThePast` | internal/usecase/discovery_rate_limit.go:55-68 | what a window's start and counter say about everything admitted so far |
| `Pace.AnySecondAdmitsFewerThanTwice` | internal/usecase/discovery_rate_limit.go:55-68 | over every run no half-open second admits more than 39 publishes of a key |
| `Pace.TheBoundIsReached` | internal/usecase/discovery_rate_limit.go:55-68 | a run that admits 39 within a second |
| `Pace.SparseIsAdmitted` | internal/usecase/discovery_rate_limit.go:55-68 | a publish with fewer than 20 calls of its key in the second before it is admitted |
| `Pace.EmitCoalescer.DoSubmit` | internal/usecase/discovery_rate_limit.go:147-169 | the node's lane takes the step, every other lane stands |
| `Pace.EmitCoalescer.Flush` | internal/usecase/discovery_rate_limit.go:189-195 | a fired timer emits and reopens the window of its node alone |
| `Pace.EveryRunKeepsInv` | internal/usecase/discovery_rate_limit.go:147-195 | at most one timer per node, booked exactly while an emit is pending, and emits two apart lie an interval apart |
| `Pace.AtMostTwoEmitsPerInterval` | internal/usecase/discovery_rate_limit.go:147-195 | no half-open interval of the coalescing length sees three emits of a node |
| `Pace.LateTimerFollowsADirectEmit` | internal/usecase/discovery_rate_limit.go:147-195 | a run with two emits at one instant: one per interval would be too strong |
| `Pace.EverySubmitIsEmitted` | internal/usecase/discovery_rate_limit.go:147-195 | after any submit an emit no earlier than it has been made, or one is booked within an interval |
| `PluginPlan.PassAgrees` | internal/usecase/plugin_data_plan.go:23-35 | a pass that may write makes disk, mirror and record equal, a second is a no-op, a local edit is never overwritten |
| `PluginPlan.PlanMeans` | internal/usecase/plugin_data_plan.go:23-35 | a conflict is exactly an edit that replaces a mirror version other than the last one this device had; edited disks are pushed, lagging ones take the mirror's version or wait |
| `PluginPlan.TwoRoundsConverge` | internal/usecase/plugin_data_plan.go:23-35 | any number of devices, any order: after everyone had a turn and then a writing turn, every disk, record and the mirror agree |
| `PluginPlan.MirrorComesFromAnEdit` | internal/usecase/plugin_data_plan.go:23-35 | what is agreed on is the mirror's version or some device's edit |
| `PluginPlan.LoneEditWins` | internal/usecase/plugin_data_plan.go:23-35 | a single edited device decides the outcome, whatever the order |
| `PluginPlan.OneRoundIsNotEnough` | internal/usecase/plugin_data_plan.go:23-35 | a fleet that one round leaves apart |
| `PluginKey.KeyIsInjective` | internal/domain/vault_sync_plugins.go:42 | newline-joined keys are equal exactly when plugin and path are |
| `PluginKey.PrefixFindsOwn` | internal/usecase/plugin_data_reconcile.go:123-140 | the prefix test finds exactly the plugin's own records and gives back the path |
| `PluginKey.NewlineBreaksKeys` | internal/domain/vault_sync_plugins.go:42 | two files that share a key when an id holds a newline |
| `PluginPass.Pass.Scan` | internal/usecase/plugin_data_reconcile.go:80-114 | of the listed files, in order, exactly those are scanned, with what the disk holds, that can be read and fit next to the ones before; the others are skipped |
| `PluginPass.TakenWithin` | internal/usecase/plugin_data_reconcile.go:80-114 | what is read keeps the limits per file and in number, and the bytes too unless a file outgrew its listed size; then they exceed the limit by less than one file |
| `PluginPass.AllTaken` | internal/usecase/plugin_data_reconcile.go:80-114 | where all files can be read and together keep the limits, none is skipped |
| `PluginPass.Pass.LoadMirror` | internal/usecase/plugin_data_reconcile.go:123-140 | the pass sees the last mirror entry of each of its paths and no other plugin's |
| `PluginPass.Pass.LoadLast` | internal/usecase/plugin_data_reconcile.go:123-140 | the pass sees exactly its own records of what was last on disk |
| `PluginPass.Pass.Decide` | internal/usecase/plugin_data_reconcile.go:145-198 | each path gets the effect the facts call for and its own notice - conflict, pushed, applied, waiting - and the counts are those of distinct paths |
| `PluginPass.Pass.CommitLast` | internal/usecase/plugin_data_reconcile.go:222-255 | the records of the pass replace the old ones, every other record stands |
| `PluginPass.Pass.CommitMirror` | internal/usecase/plugin_data_reconcile.go:222-255 | pushed paths get their scanned content or lose their entry, every other entry stands |
| `PluginPass.PathSettles` | internal/usecase/plugin_data_reconcile.go:145-255 | for one path the effects, once committed, are the three-way rule; which way its bytes go; exactly when it is left out; and its notice told by the path before and after: a conflict exactly when a mirror version this device never had was replaced, but for an undeclared path |
| `PluginPass.UndeclaredIsReportedInConflict` | internal/usecase/plugin_data_reconcile.go:145-160 | an undeclared path that is left out and still reported in conflict |
| `PluginPass.Reconcile` | internal/usecase/plugin_data_reconcile.go:40-67 | the whole pass applies the three-way rule to every declared unskipped path, moves exactly the bytes it should, skips exactly what it must, reports exactly what it did told by each path before and after, touches nothing else, no other plugin included, and changes nothing at all where all is agreed |
| `PluginPass.ReconcileTwice` | internal/usecase/plugin_data_reconcile.go:40-67 | the first pass brings each path it may touch to agreement, and a second one that skips no less leaves the vault and the disk exactly as the first left them |
| `RecoveryKey.NextDigit` | internal/domain/recovery_key.go:100-120 | the digit read from the 16-bit register is the digit of the whole number |
| `RecoveryKey.EncodeRecoveryKey` | internal/domain/recovery_key.go:100-120 | 32 canonical characters that spell in base 32 the 160-bit number the bytes spell; any other length gives nothing |
| `RecoveryKey.EncodingIsBijective` | internal/domain/recovery_key.go:100-120 | two entropies have the same key exactly when they are equal |
| `RecoveryKey.NormalizeRecoveryKey` | internal/domain/recovery_key.go:37-61 | returns the key the input spells up to case, separators and O, I, L, and refuses exactly what spells none |
| `RecoveryKey.SpellsOneKey` | internal/domain/recovery_key.go:37-61 | no input spells two keys |
| `RecoveryKey.RegroupingIsFree` | internal/domain/recovery_key.go:37-61 | a separator anywhere changes nothing |
| `RecoveryKey.FormatRecoveryKey` | internal/domain/recovery_key.go:78-93 | the displayed key spells the key it shows |
| `RecoveryKey.TypedKeyDeterminesEntropy` | internal/domain/recovery_key.go:37-120 | what a user types back determines the entropy |
| `Throttle.DelayIsAsPromised` | internal/domain/unlock_throttle.go:138-151 | for every policy, the wrapped shift gives the promised delay exactly unless it escapes the guard or the cut-off comes too early |
| `Throttle.ShippedDelays` | internal/domain/recovery_throttle.go:30-45 | both shipped policies give min(cap, base doubled) for every failure count |
| `Throttle.OverflowCanShortenTheDelay` | internal/domain/unlock_throttle.go:138-151 | a policy and count for which the delay is too short |
| `Throttle.UnlockThrottle.Check` | internal/domain/unlock_throttle.go:81-92 | allowed exactly when the time has come, else the wait ends at the next allowed instant |
| `Throttle.UnlockThrottle.RecordFailure` | internal/domain/unlock_throttle.go:96-109 | counts the failure and books the delay once the free attempts are used |
| `Throttle.UnlockThrottle.RecordSuccess` | internal/domain/unlock_throttle.go:113-121 | forgets everything |
| `Throttle.WaitIsCapped` | internal/domain/unlock_throttle.go:64-121 | over every run with a monotone clock, for every policy as it takes effect, nobody waits longer than the cap |
| `Throttle.SuccessStartsAfresh` | internal/domain/unlock_throttle.go:113-121 | after a success an attempt is let through at once and the throttle goes on exactly as a new one |
| `Throttle.PoliciesInUse` | internal/domain/unlock_throttle.go:52-69 | the zero value, which the password throttle is, and both shipped policies are covered |
| `Throttle.DelayPerBatch` | internal/domain/unlock_throttle.go:81-109 | with at most k attempts in flight, the failure k after the r-th comes no sooner than the r-th delay |
| `Throttle.GuessingIsSlow` | internal/domain/unlock_throttle.go:81-151 | for either shipped schedule, with at most k attempts in flight, the failure b batches of k after the last free one comes at least b delays later |
| `Throttle.SequentialGuessingIsSlow` | internal/domain/unlock_throttle.go:81-151 | where an attempt starts only after the one before is recorded, the n-th comes at least 31 + 30 (n - 8) seconds after the third failure for a password (n from 8 on), and 315 + 300 (n - 7) after the first for a recovery key (n from 7 on) |
| `Throttle.VolleyIsLetThrough` | internal/presentation/wails/handlers_vault_unlock.go:36-49 | any number of attempts started together are all let through at one instant |
| `ShellQuote.QuotedReadsBack` | internal/usecase/channel_exec_backend.go:291-301 | escaped text inside single quotes reads back as itself |
| `ShellQuote.JoinedReadsBack` | internal/usecase/channel_exec_backend.go:291-301 | quoted and joined arguments split into exactly those arguments |
| `ShellQuote.ShellQuoteArgv` | internal/usecase/channel_exec_backend.go:291-301 | for every argv, splitting and quote removal by the POSIX rules gives argv back, empty arguments and quotes included |
| `ShellQuote.QuotingIsInjective` | internal/usecase/channel_exec_backend.go:291-301 | different argument lists give different command lines |
| `CancelRegistry.RunsKeepValid` | internal/usecase/cancel_registry.go:74-168 | over every run the marks are duplicate-free and at most 64 |
| `CancelRegistry.MarkStep` | internal/usecase/cancel_registry.go:92-168 | a mark nobody speaks for is lost in a step exactly when a fresh one arrives behind 63 still held |
| `CancelRegistry.MarkLasts` | internal/usecase/cancel_registry.go:124-168 | a mark stays while the marks behind it and the fresh ones number fewer than 64, and in a run that forgets none exactly that long |
| `CancelRegistry.ClosedIdIsNotRevived` | internal/usecase/cancel_registry.go:92-139 | after a cancel the next phase is refused unless an owner spoke for the id or the marks behind reach 64, in a run that forgets none exactly then; an id still marked keeps its old place |
| `CancelRegistry.StaleMarkIsEvictedEarly` | internal/usecase/cancel_registry.go:142-155 | a run from the empty registry in which one later cancel evicts a mark made by cancelling again |
| `CancelRegistry.ActionsRunAtMostOnce` | internal/usecase/cancel_registry.go:74-139 | over every run each stored action runs at most once, and none that was not stored |
| `CancelRegistry.KeptMeansStands` | internal/usecase/cancel_registry.go:61-139 | what is kept under an id is the action last put there, until anything else concerns the id |
| `CancelRegistry.CancelRunsWhatStands` | internal/usecase/cancel_registry.go:124-139 | a cancel runs exactly the action that stands under its id and leaves none; nothing else runs any |
| `CancelRegistry.SpeakingSettlesTheMark` | internal/usecase/cancel_registry.go:92-139 | a next phase is refused exactly while the id is marked and uses the mark up; unregistering clears it; a cancel leaves one exactly when it found something |
| `CancelRegistry.Registry.DoTakeOver` | internal/usecase/cancel_registry.go:92-106 | refuses and clears a marked id, else stores the action: the step of the bounded set |
| `CancelRegistry.Registry.DoUnregister` | internal/usecase/cancel_registry.go:109-115 | drops action and mark |
| `CancelRegistry.Registry.DoCancel` | internal/usecase/cancel_registry.go:124-139 | runs and marks a known id, forgets an unknown one |
| `CancelRegistry.Registry.MarkTerminated` | internal/usecase/cancel_registry.go:142-155 | set and order list stay one bounded first-in first-out set |
| `CancelRegistry.Registry.ForgetTerminated` | internal/usecase/cancel_registry.go:157-168 | the id leaves both, the rest keeps its order |
| `OperationReporter.RunsHaveOneTerminal` | internal/usecase/operation_reporter.go:78-120 | over every run at most one terminal event, always last |
| `OperationReporter.FiguresAreKept` | internal/usecase/operation_reporter.go:98-120 | the stored figures are those of the last call that counted |
| `OperationReporter.FinishCloses` | internal/usecase/operation_reporter.go:98-120 | a terminal Finish leaves exactly one terminal event, with the last figures even if throttled, whatever follows |
| `OperationReporter.ClosedMeansOver` | internal/usecase/operation_reporter.go:72-120 | the latch is set exactly when some call carried a terminal state |
| `OperationReporter.SendsExactly` | internal/usecase/operation_reporter.go:78-153 | an event goes out exactly when none was terminal yet and this one is, or its count is a multiple of 64, or 100 ms have passed since the last one; it carries the figures the call reports |
| `OperationReporter.Reporter.ReportLocked` | internal/usecase/operation_reporter.go:105-120 | the latch, the figures and the emitted events after one report |
| `OperationReporter.Reporter.ThrottleReady` | internal/usecase/operation_reporter.go:146-153 | ready every so many counts or after the interval, and only then is the clock moved |
| `Credentials.CheckCredentialScope` | internal/domain/credential_binding.go:30-47 | a team connection passes exactly when every credential it names is kept in its own vault or nowhere |
| `Credentials.ResolveCredentials` | internal/domain/credential_binding.go:76-114 | an inline credential as it is, within its vault; a personal user by the last binding under its key: missing, suspended or unusable each exactly when, and else by key with that key alone exactly when the binding names one, or by password with that password alone, id and mark the user's own |
| `Credentials.BindTakesOnePersonal` | internal/usecase/credential_bindings.go:37-62 | Bind takes exactly a full spot with one personal credential |
| `Credentials.BindThenResolve` | internal/domain/credential_binding.go:76-114 | what a member binds to a personal user is what the user then authenticates with, by the method that goes with it, and nothing else |
| `Credentials.IntroducedMeansNew` | internal/domain/credential_adopt.go:47-69 | something is adopted exactly when the save names a personal credential of the active method that the stored user did not name |
| `Credentials.StepRefinesLedger` | internal/usecase/credential_bindings.go:37-78 | the binding list is one register per joined key: each operation does to each register what it says, and all another account's version can do to one is suspend it |
| `Credentials.EveryBindingIsTraced` | internal/domain/credential_adopt.go:24-100 | over every run each binding was made by Bind or by adopting this member's own save, and one in force was made or confirmed after the last version of another account that repointed its connection |
| `Credentials.SuspendedMeansRepointed` | internal/domain/synctrust/binding.go:32-42 | over every run a suspended binding was suspended by a version of its very connection from the account it names, and neither confirmed nor suspended anew since |
| `Credentials.PersonalOnlyThroughOwnBinding` | internal/domain/credential_binding.go:65-114 | over every run a team connection's user resolves to a personal credential only through an in-force binding under its key that this member made, of that very user where the bound ids hold no slash, and then to that credential alone |
| `Credentials.AdoptThenResolve` | internal/domain/credential_adopt.go:24-41 | after a save the user is on file with its id and method but no inline reference, and resolves to exactly the credential picked by the method that goes with it, but for a key filed under the empty id |
| `Credentials.PlantedReferenceIsNotAdopted` | internal/domain/credential_adopt.go:24-69 | a user that names only what the stored record names is left alone |
| `Credentials.SaveFiles` | internal/infra/persistence/connection_repo.go:219-264 | a known connection is replaced in its place and keeps its vault, a new one is added where its folder allows, no other record changes, and only adopted users lose their inline credential |
| `Credentials.Vault.PutBinding` | internal/domain/credential_adopt.go:93-100 | replaces the user's binding, in force, and keeps every other |
| `Credentials.Vault.IntroducedPersonalCredential` | internal/domain/credential_adopt.go:47-69 | the first new personal credential of the active method |
| `Credentials.Vault.AdoptPersonalCredentials` | internal/domain/credential_adopt.go:24-41 | the loop adopts for every user in turn and marks exactly the adopted ones personal |
| `Credentials.Vault.DoSave` | internal/infra/persistence/connection_repo.go:219-264 | a save places, adopts and files the connection in one step |
| `Credentials.Vault.DoBind` | internal/usecase/credential_bindings.go:37-62 | binds exactly one own personal credential, or refuses and changes nothing |
| `Credentials.Vault.DoConfirm` | internal/usecase/credential_bindings.go:65-78 | resumes the user's binding, or reports that there is none |
| `Credentials.Vault.SuspendBindings` | internal/domain/synctrust/binding.go:32-42 | suspends exactly the bindings of the connection |
| `Credentials.Vault.DoDelete` | internal/infra/persistence/connection_repo.go:266-276 | exactly the records with the id go, and no binding |
| `Credentials.Vault.NoteRepointing` | internal/usecase/sync_interpret.go:206-235 | another account's version repoints exactly when it deletes, returns from a verified deletion, or names another address than the one on file |
| `Credentials.Vault.ApplyVersion` | internal/usecase/sync_pull.go:230-239 | a version takes the place of its connection's record, and the bindings it repoints are suspended in the same update |
| `CredentialAddress.OthersAreSuspended` | internal/usecase/sync_interpret.go:206-235 | another account's version that changes the address on file suspends exactly unless nothing was on file and no deletion was verified |
| `CredentialAddress.CredentialFollowsOwnAddressOnly` | internal/usecase/sync_interpret.go:206-235 | over every run, where a personal credential resolves, every change of the address since it was bound or confirmed was the member's own, or came where nothing was on file and no deletion was verified |
| `CredentialAddress.UnsyncedDeletionLetsTheAddressChange` | internal/usecase/sync_interpret.go:224-235 | a run in which a connection deleted here, before the deletion is synced, returns from another account at a new address with the binding in force |
| `CredentialKey.KeyIsAloneIffPlain` | internal/domain/credential_binding.go:63 | a triple shares its joined key with no other exactly when none of its three ids holds a slash |
| `CredentialKey.SlashHasCompany` | internal/domain/credential_binding.go:63 | for every triple with a slash, another with the same key |
| `CredentialKey.SameConnectionApart` | internal/domain/credential_binding.go:63 | within one connection keys tell users apart whatever the ids hold |
| `PeerTrust.Sessions.Raise` | internal/usecase/peer_trust_lifecycle.go:37-68 | raises a question, repeats it, or refuses, in one write |
| `PeerTrust.Sessions.Clear` | internal/usecase/peer_trust_lifecycle.go:104-111 | drops the question of a known session |
| `PeerTrust.Sessions.TakeWaiting` | internal/usecase/peer_trust_lifecycle.go:155-173 | moves back to connecting exactly from the two waiting states, and clears the question with it |
| `PeerTrust.TrustRepo.Find` | internal/infra/persistence/peer_trust_repo.go:32-44 | what the list holds for a scope and subject |
| `PeerTrust.TrustRepo.Put` | internal/infra/persistence/peer_trust_repo.go:51-76 | replaces exactly the pair's material, or refuses an unusable one |
| `PeerTrust.TrustRepo.Remove` | internal/infra/persistence/peer_trust_repo.go:90-102 | forgets exactly the pair |
| `PeerTrust.PendingQuestionStands` | internal/usecase/peer_trust_lifecycle.go:37-114 | over every run a pending question keeps its material, fingerprint and subject until it is cleared |
| `PeerTrust.EveryRunIsHonest` | internal/usecase/peer_trust_service.go:106-212 | every question, announcement and call shows the digest of its own material, which a plugin observed on that session under the record's subject, and warns exactly when other material was found stored |
| `PeerTrust.RepoIsLastPut` | internal/usecase/peer_trust_service.go:190-203 | a pair holds a material exactly when a call stored it and nothing touched the pair since |
| `PeerTrust.StoredMeansConsented` | internal/usecase/peer_trust_service.go:171-212 | every stored entry is the material of a question whose fingerprint the user echoed with "trust" before it was stored |
| `PeerTrust.VerifyTrueMeansConsented` | internal/usecase/peer_trust_service.go:106-138 | Verify answers true only for consented material stored for its scope and subject and not since replaced or revoked |
| `PeerTrustAnswers.VerifyAsks` | internal/usecase/peer_trust_service.go:106-157 | from any state, a Verify left to finish: known material asks nothing; else a waiting session without a question gets exactly this one and shows it, the same question is announced again, any other case changes nothing |
| `PeerTrustAnswers.TrustStores` | internal/usecase/peer_trust_service.go:171-212 | trusting stores the question's material for its subject, takes a waiting session back to connecting, and changes nothing else |
| `PeerTrustAnswers.TrustThenVerify` | internal/usecase/peer_trust_service.go:106-212 | after that Verify answers true for that subject exactly for the trusted material |
| `PeerTrustAnswers.RejectFails` | internal/usecase/peer_trust_service.go:171-212 | rejecting drops the question, fails the session and stores nothing |
| `PeerTrustAnswers.StrayAnswerChangesNothing` | internal/usecase/peer_trust_service.go:171-190 | an answer changes nothing exactly when it is unknown, nothing is pending or it does not echo the pending fingerprint |
| `PeerTrustAnswers.WarningMeansOtherKnown` | internal/usecase/peer_trust_service.go:106-157 | over every run a pending question warns of a mismatch exactly when other material stood stored for its subject when it was looked up |
| `PeerTrustAnswers.QuestionsAreStorable` | internal/usecase/peer_trust_service.go:106-157 | every question is about material that can be stored |
| `PeerTrustAnswers.SessionIsHistory` | internal/usecase/peer_trust_lifecycle.go:37-173 | no answer, retry or failure removes a session or brings one back |
| `PeerTrustScreen.OnlyWaitingSessionsAreAsked` | internal/usecase/peer_trust_lifecycle.go:46-60 | a question appears only through a call asking on that session, and only while it is connecting or waits for a decision |
| `PeerTrustScreen.StateIsLastWritten` | internal/usecase/peer_trust_lifecycle.go:37-114 | while a question is pending its session's state is the last one written since - a mark, a rejection's second write or a move from outside - or the one it was raised in |
| `PeerTrustScreen.PendingQuestionIsVisible` | internal/usecase/peer_trust_lifecycle.go:69-78 | a session fails to show its pending question exactly when something moved it elsewhere since it was raised, nothing marked it again and no call is about to |
| `PeerTrustScreen.StrandedMeansFailedSince` | internal/usecase/peer_trust_lifecycle.go:104-114 | a question is stranded on a failed session exactly when the last write since it was raised was a failure |
| `PeerTrustScreen.DrawnBackMeansMarked` | internal/usecase/peer_trust_lifecycle.go:69-78 | a step takes a ready session to trust-required exactly when it is the second write of a question, or a move from outside |
| `PeerTrustScreen.DrawnBackMeansRaisedBefore` | internal/usecase/peer_trust_lifecycle.go:37-78 | over every run a call draws a ready session back exactly when it raised a question there and takes its next step only now |
| `PeerTrustScreen.LateMarkReachesAReadySession` | internal/usecase/peer_trust_lifecycle.go:69-76 | a run in which a session becomes ready between the two writes of a question and is drawn back |
| `PeerTrustScreen.RejectCanStrandAQuestion` | internal/usecase/peer_trust_lifecycle.go:104-114 | a run in which a question raised between the two writes of a rejection stays on a failed session |
| `PeerTrustScreen.AnnouncedNamesPending` | internal/usecase/peer_trust_service.go:106-157 | the pending question and any announced on its session name the same subject exactly when the record did at the two calls that observed their material |
| `PeerTrustScreen.RecordStands` | internal/usecase/peer_trust_service.go:219-233 | a record nobody writes between two calls names one subject at both |
| `PeerTrustScreen.RepointedQuestionKeepsOldSubject` | internal/usecase/peer_trust_lifecycle.go:52-57 | a run in which the record changes under a pending question and the same material announces another subject |
| `EmbedTunnel.StepKeepsInv` | internal/usecase/embed_tunnel_service.go:190-553 | every operation keeps sessions and tokens inverse and every connection attached in one place, closed or orphaned |
| `EmbedTunnel.EveryRunKeepsInv` | internal/usecase/embed_tunnel_service.go:190-553 | so does every run with fresh tokens |
| `EmbedTunnel.OrphanedMeansReplaced` | internal/usecase/embed_tunnel_service.go:214-244 | a connection is orphaned exactly when its session was registered anew while it was attached |
| `EmbedTunnel.OrphansAreNeverClosed` | internal/usecase/embed_tunnel_service.go:214-279 | of the connections no longer attached, exactly those attached when their session was registered anew were not closed |
| `EmbedTunnel.ReplacedStaysOpen` | internal/usecase/embed_tunnel_service.go:214-244 | such a connection is never closed, however the run goes on |
| `EmbedTunnel.RegisteringAgainOrphans` | internal/usecase/embed_tunnel_service.go:214-244 | a run in which registering again leaves an attached connection open for ever |
| `EmbedTunnel.GateIsHistory` | internal/usecase/embed_tunnel_service.go:319-331 | a tunnel is marked closed exactly when CloseTunnel hit it and nothing reopened it since |
| `EmbedTunnel.StageIsHistory` | internal/usecase/embed_tunnel_service.go:190-553 | each tunnel of each session is a four-state machine of its own, moved only by the operations on it |
| `EmbedTunnel.RouteFollowsStage` | internal/usecase/embed_tunnel_service.go:358-387 | a frame that passes the other checks is told exactly the stage its tunnel's history has reached |
| `EmbedTunnel.ClosedMeansClosedLast` | internal/usecase/embed_tunnel_service.go:340-388 | a frame is refused as tunnel-closed exactly when it passes the other checks and CloseTunnel was the last word on its tunnel |
| `EmbedTunnel.AttachFollowsTheTab` | internal/usecase/embed_tunnel_service.go:471-492 | right after attaching, frames pass the tab check exactly when the tab was last reported active |
| `EmbedTunnel.FirstAttachSilences` | internal/usecase/embed_tunnel_service.go:471-492 | a run in which a tunnel goes silent the moment its browser attaches |
| `EmbedLaws.AttachesExactly` | internal/usecase/embed_tunnel_service.go:471-492 | a browser attaches exactly with a token some registration made that was neither replaced nor revoked since, before its expiry, and to a tunnel that registration named |
| `EmbedLaws.ActiveIsHistory` | internal/usecase/embed_tunnel_service.go:214-492 | whether frames pass the tab check, told by registrations, attaches and tab reports alone |
| `EmbedLaws.RouteExactly` | internal/usecase/embed_tunnel_service.go:340-388 | over every run each of the nine answers a frame can get, and exactly when: size, session, tab, rate, then the stage of its tunnel |
| `EmbedTunnel.TunnelService.DoRegister` | internal/usecase/embed_tunnel_service.go:190-259 | replaces the session's entry and token, or refuses exactly without session or plugin or with more than eight tunnels |
| `EmbedTunnel.TunnelService.RevokeBySession` | internal/usecase/embed_tunnel_service.go:262-279 | closes each connection of the entry, none a second time, and forgets the session |
| `EmbedTunnel.TunnelService.OpenTunnel` | internal/usecase/embed_tunnel_service.go:319-331 | opens a registered tunnel |
| `EmbedTunnel.TunnelService.CloseTunnel` | internal/usecase/embed_tunnel_service.go:439-454 | closes the tunnel and its connection, never a second time |
| `EmbedTunnel.TunnelService.SetSessionActive` | internal/usecase/embed_tunnel_service.go:457-468 | the tab's state reaches the session's entry |
| `EmbedTunnel.TunnelService.AttachWebSocket` | internal/usecase/embed_tunnel_service.go:471-492 | attaches a new connection in place of the old, which is closed, never a second time |
| `EmbedTunnel.TunnelService.SubscribeOutbound` | internal/usecase/embed_tunnel_service.go:505-538 | the last subscriber of a tunnel receives its input, the one before is told to stop, and a registered tunnel is marked open |
| `EmbedTunnel.TunnelService.Unsubscribe` | internal/usecase/embed_tunnel_service.go:540-552 | a subscription takes away only its own registration, and may be ended again |
| `EmbedTunnel.TunnelService.RouteTunnelFrameFromPlugin` | internal/usecase/embed_tunnel_service.go:340-388 | the classification of a frame |

## Left out

- Observer: the runs are steps of a state machine rather than methods, because another thread may come between two steps of one method; clearing a connection is not one of the steps, since it drops the send gate.
- Leader: the background reconciliation is a state machine for the same reason, told for one connection.
- PeerTrust: Verify and Resolve are cut into the steps between two locks rather than written as methods; the digest is taken to tell materials apart, and material is known by its size and identity.
- Pace.PublishLimiter.Allow: calls reach the limiter in clock order; the program reads the clock before it takes the lock.
- Pace.EmitCoalescer.DoSubmit: booking a timer and emitting belong to the step that decides them; forgetting a connection or plugin is not part of the runs.
- PluginPass.Reconcile: assumes that mirror entries carry the digest of their content, that the listing holds each declared file once, and models the file system's refusals as given sets; nothing else writes the vault or the disk during a pass, which in the program reads first and commits later; the order of the reported lists is not modelled.
- PluginPlan.TwoRoundsConverge: the sync of the mirror between devices is one register in which the last write stands.
- Credentials: the address stands for host, port and jump chain; whether a deletion was verified here is a parameter of a received version; merging a version with a local edit that is not synced yet, quarantine, the order of the records, moving a connection between vaults and the sync of bindings between a member's own devices are not modelled.
- EmbedTunnel: the token's randomness is the assumption that a minted token is not in use; the expiry handed in is the one in effect, the default lifetime included; the revoked flag is not modelled, since the entry goes in the same step; blocking delivery from browser to plugin, descriptors and the byte queue are left out.
- DiscoveryStore.Store: the two nested maps are one map keyed by the pair; icons a plugin did not declare are stripped before a publish, which is not modelled.
- DiscoveryPublish.Router.Apply: one atomic step; in the program the leading check and the write hold different locks. The broadcast that a dropped id owes the plugins is in Observer.
- Throttle: an attempt that is neither accepted nor refused by the vault records nothing and is not an event.
- Credentials.Vault.DoSave: validation and the folder rules are the parameter that says where the connection may live, or that the save is refused.
- EmbedTunnel.TunnelService.RouteTunnelFrameFromPlugin: the limiter's word and the room in the send queue are parameters.
- Logging, audit, JSON, cryptography, the network, the frontend and the wiring of the program.
- Clocks, randomness, file system answers and the callbacks into plugins are parameters or recorded effects.
