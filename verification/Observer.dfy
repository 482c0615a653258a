/**
 The observed set of one connection and how plugins are told about it
 (internal/usecase/discovery_observer.go), as a state machine whose steps are
 the sections the program runs under one lock or between two: the state lock
 guards the set, and a second lock, the send gate, is the only one held while
 plugins are called. Threads - set changes, leader changes, plugin starts - may
 take their steps in any order.

 A set that was never touched is modelled as the empty set at version 0, which
 every reader treats alike. Clearing a connection is not part of these runs.
 */
module Observer {
  import opened Basics

  type Plugin(==, !new)
  type NodeId(==, !new)

  /** Where a thread stands. The first five are a broadcast, the rest a replay to one started plugin. */
  datatype Phase =
    | AwaitsGate
    | AtGate
    | Captured(version: nat, ids: set<NodeId>)
    | Sending(version: nat, ids: set<NodeId>, todo: set<Plugin>)
    | Leaving
    | AsksLeader(plugin: Plugin)
    | AwaitsReplay(plugin: Plugin)
    | AtReplay(plugin: Plugin)
    | Replaying(plugin: Plugin, version: nat, ids: set<NodeId>)

  predicate HoldsGate(p: Phase) {
    p.AtGate? || p.Captured? || p.Sending? || p.Leaving? || p.AtReplay? || p.Replaying?
  }

  predicate Delivers(p: Phase) { p.Captured? || p.Sending? }

  /** Inside the gate with a set in hand. */
  predicate Carries(p: Phase) { Delivers(p) || p.Replaying? }

  predicate ReplaysTo(p: Phase, plugin: Plugin) {
    (p.AwaitsReplay? || p.AtReplay? || p.Replaying?) && p.plugin == plugin
  }

  datatype Payload = Payload(plugin: Plugin, version: nat, ids: set<NodeId>)

  datatype State = State(
    ids: set<NodeId>, version: nat, sent: nat,
    gate: Option<nat>,
    threads: map<nat, Phase>,
    targets: set<Plugin>,              // the plugins that declared the connection's protocol
    running: set<Plugin>,
    known: map<Plugin, nat>,           // the version each running plugin was last told
    log: seq<Payload>,                 // every payload that reached a plugin, in order
    history: seq<set<NodeId>>,         // the set at each version so far
    unled: bool,                       // a delivery was dropped for want of a leader, and no broadcast began since
    aimed: set<Plugin>,                // addressable at the last live broadcast, or when their own later start was served
    turned: set<Plugin>,               // had their turn in the last live broadcast, as they run now
    caught: set<Plugin>,               // told the newest version by a replay
    reborn: set<Plugin>)               // started since the last live broadcast

  predicate Initial(s: State) {
    && s.ids == {} && s.version == 0 && s.sent == 0 && s.gate == None && s.threads == map[]
    && s.running == {} && s.known == map[] && s.log == [] && s.history == [{}] && !s.unled
    && s.aimed == {} && s.turned == {} && s.caught == {} && s.reborn == {}
  }

  // ----- the steps ------------------------------------------------------------------------

  datatype Event =
    | SetObserved(thread: nat, ids: set<NodeId>)
    | Retain(thread: nat, removed: set<NodeId>)
    | ConnectionChanged(thread: nat)
    | TakeGate(thread: nat)
    | Capture(thread: nat)
    | ReadLeader(thread: nat, live: bool)
    | Send(thread: nat, plugin: Plugin)
    | MarkSent(thread: nat)
    | ReleaseGate(thread: nat)
    | PluginStarted(thread: nat, plugin: Plugin)
    | PluginStopped(plugin: Plugin)
    | Retarget(targets: set<Plugin>)
    | AskLeader(thread: nat, live: bool)
    | ReadForReplay(thread: nat)
    | Replay(thread: nat)

  /** The phase a thread is in, if it is at all. */
  function At(s: State, t: nat): Option<Phase> {
    if t in s.threads then Some(s.threads[t]) else None
  }

  predicate Enabled(s: State, e: Event) {
    match e
    case SetObserved(t, _) => t !in s.threads
    case Retain(t, _) => t !in s.threads
    case ConnectionChanged(t) => t !in s.threads
    case TakeGate(t) => s.gate == None && t in s.threads && (s.threads[t].AwaitsGate? || s.threads[t].AwaitsReplay?)
    case Capture(t) => At(s, t) == Some(AtGate)
    case ReadLeader(t, _) => t in s.threads && s.threads[t].Captured?
    case Send(t, p) => t in s.threads && s.threads[t].Sending? && p in s.threads[t].todo
    case MarkSent(t) => t in s.threads && s.threads[t].Sending? && s.threads[t].todo == {}
    case ReleaseGate(t) => At(s, t) == Some(Leaving)
    case PluginStarted(t, p) => t !in s.threads && p !in s.running
    case PluginStopped(p) => p in s.running
    case Retarget(_) => true
    case AskLeader(t, _) => t in s.threads && s.threads[t].AsksLeader?
    case ReadForReplay(t) => t in s.threads && s.threads[t].AtReplay?
    case Replay(t) => t in s.threads && s.threads[t].Replaying?
  }

  function Goto(s: State, t: nat, p: Phase): State {
    s.(threads := s.threads[t := p])
  }

  /** A new version of the set, and the broadcast that is now owed. */
  function Bump(s: State, ids: set<NodeId>, t: nat): State {
    Goto(s, t, AwaitsGate).(ids := ids, version := s.version + 1, history := s.history + [ids], caught := {})
  }

  /** Notify: a plugin that is not running hears nothing. */
  function Deliver(s: State, p: Plugin, version: nat, ids: set<NodeId>): State {
    if p in s.running then s.(known := s.known[p := version], log := s.log + [Payload(p, version, ids)]) else s
  }

  /** A replay that reaches the plugin with the newest version. */
  predicate Catches(s: State, e: Event, plugin: Plugin) {
    && e.Replay? && e.thread in s.threads && s.threads[e.thread].Replaying?
    && s.threads[e.thread].plugin == plugin && s.threads[e.thread].version == s.version && plugin in s.running
  }

  function Next(s: State, e: Event): State
    requires Enabled(s, e)
  {
    match e
    case SetObserved(t, ids) => Bump(s, ids, t)
    case Retain(t, removed) => if s.ids * removed != {} then Bump(s, s.ids - removed, t) else s
    case ConnectionChanged(t) => Bump(s, s.ids, t)
    case TakeGate(t) =>
      var p := s.threads[t];
      Goto(s, t, if p.AwaitsGate? then AtGate else AtReplay(p.plugin)).(gate := Some(t))
    case Capture(t) => Goto(s, t, if s.version <= s.sent then Leaving else Captured(s.version, s.ids))
    case ReadLeader(t, live) =>
      var p := s.threads[t];
      if live then Goto(s, t, Sending(p.version, p.ids, s.targets)).(unled := false, aimed := s.targets, turned := {}, reborn := {})
      else Goto(s, t, Leaving).(unled := true)
    case Send(t, plugin) =>
      var p := s.threads[t];
      Deliver(Goto(s, t, p.(todo := p.todo - {plugin})), plugin, p.version, p.ids).(
        turned := if plugin in s.running then s.turned + {plugin} else s.turned)
    case MarkSent(t) =>
      var v := s.threads[t].version;
      Goto(s, t, Leaving).(sent := if s.sent < v then v else s.sent)
    case ReleaseGate(t) => s.(threads := s.threads - {t}, gate := None)
    case PluginStarted(t, plugin) =>
      Goto(s, t, AsksLeader(plugin)).(
        running := s.running + {plugin}, known := s.known - {plugin}, caught := s.caught - {plugin},
        aimed := s.aimed - {plugin}, turned := s.turned - {plugin}, reborn := s.reborn + {plugin})
    case PluginStopped(plugin) =>
      s.(running := s.running - {plugin}, known := s.known - {plugin}, caught := s.caught - {plugin}, turned := s.turned - {plugin})
    case Retarget(targets) => s.(targets := targets)
    case AskLeader(t, live) =>
      var plugin := s.threads[t].plugin;
      if !live then s.(threads := s.threads - {t}, unled := true)
      else if plugin in s.targets then Goto(s, t, AwaitsReplay(plugin)).(aimed := s.aimed + {plugin})
      else s.(threads := s.threads - {t})
    case ReadForReplay(t) => Goto(s, t, Replaying(s.threads[t].plugin, s.version, s.ids))
    case Replay(t) =>
      var p := s.threads[t];
      Deliver(Goto(s, t, Leaving), p.plugin, p.version, p.ids).(
        caught := if Catches(s, e, p.plugin) then s.caught + {p.plugin} else s.caught)
  }

  // ----- the invariant ---------------------------------------------------------------------

  ghost predicate GateHeldByOne(s: State) {
    && (forall t :: t in s.threads ==> (HoldsGate(s.threads[t]) <==> s.gate == Some(t)))
    && (s.gate.Some? ==> s.gate.value in s.threads)
  }

  ghost predicate SomeoneWaits(s: State) {
    exists t :: t in s.threads && s.threads[t].AwaitsGate?
  }

  ghost predicate BroadcastUnderWay(s: State) {
    exists t :: t in s.threads && (s.threads[t].AwaitsGate? || s.threads[t].AtGate? || Delivers(s.threads[t]))
  }

  ghost predicate ReplayPending(s: State, p: Plugin) {
    exists t :: t in s.threads && ReplaysTo(s.threads[t], p)
  }

  /** What is captured inside the gate is a true past version, no older than what was marked as sent. */
  predicate CaptureIsTrue(s: State, p: Phase) {
    && (Delivers(p) ==> s.sent < p.version < |s.history| && p.ids == s.history[p.version])
    && (p.Replaying? ==> s.sent <= p.version < |s.history| && p.ids == s.history[p.version])
  }

  ghost predicate SetIsCurrent(s: State) {
    |s.history| == s.version + 1 && s.history[s.version] == s.ids && s.sent <= s.version
  }

  /** Every payload is a past set, and versions never go back - not even past what is about to be sent. */
  ghost predicate LogIsOrdered(s: State) {
    && (forall i :: 0 <= i < |s.log| ==> s.log[i].version < |s.history| && s.log[i].ids == s.history[s.log[i].version])
    && (forall i, j :: 0 <= i < j < |s.log| ==> s.log[i].version <= s.log[j].version)
    && (forall t, i :: t in s.threads && Carries(s.threads[t]) && 0 <= i < |s.log|
          ==> s.log[i].version <= s.threads[t].version)
  }

  /** Nothing newer than what was sent is ever left without a broadcast to send it. */
  ghost predicate NewestIsOwed(s: State) {
    && (s.version > s.sent ==> s.unled || BroadcastUnderWay(s))
    && (forall t :: t in s.threads && Delivers(s.threads[t]) && s.threads[t].version < s.version ==> SomeoneWaits(s))
  }

  predicate Told(s: State, p: Plugin, version: nat) {
    p in s.known && s.known[p] == version
  }

  /** Nobody was told more than exists, nor more than what is about to be delivered. */
  ghost predicate KnownIsPast(s: State) {
    && (forall p :: p in s.known ==> s.known[p] <= s.version)
    && (forall p, t :: p in s.known && t in s.threads && Carries(s.threads[t])
          ==> s.known[p] <= s.threads[t].version)
  }

  ghost predicate SomeoneSends(s: State) {
    exists t :: t in s.threads && s.threads[t].Sending?
  }

  /** A plugin the host has taken on to tell knows what was sent, unless its turn is still to come. */
  ghost predicate AimedAreServed(s: State) {
    && (forall p :: p in s.running && p in s.aimed ==>
          (p in s.known && s.known[p] >= s.sent) || SomeoneSends(s) || s.unled || ReplayPending(s, p))
    && (forall t, p :: t in s.threads && s.threads[t].Sending? && p in s.running && p in s.aimed && p !in s.threads[t].todo ==>
          Told(s, p, s.threads[t].version) || s.unled || ReplayPending(s, p))
  }

  ghost predicate SendsNewest(s: State) {
    exists t :: t in s.threads && s.threads[t].Sending? && s.threads[t].version == s.version
  }

  /** A plugin that had its turn knows what the broadcast carries, and what it then marked as sent. */
  ghost predicate TurnedKnow(s: State) {
    && (forall p :: p in s.turned ==> p in s.known && (s.known[p] >= s.sent || SomeoneSends(s)))
    && (forall t, p :: t in s.threads && s.threads[t].Sending? && p in s.turned ==> p in s.known && s.known[p] >= s.threads[t].version)
    && s.turned <= s.aimed + s.reborn
    && (forall t :: t in s.threads && s.threads[t].Sending? ==> s.threads[t].todo <= s.aimed + s.reborn)
  }

  /** Conversely, whoever knows the newest version had its turn or was replayed to. */
  ghost predicate KnowersTurned(s: State) {
    && (forall p :: Told(s, p, s.version) ==> p in s.caught || (p in s.turned && (s.sent == s.version || SendsNewest(s))))
    && (forall p :: p in s.caught ==> Told(s, p, s.version))
  }

  ghost predicate Inv(s: State) {
    && GateHeldByOne(s)
    && SetIsCurrent(s)
    && (forall t :: t in s.threads ==> CaptureIsTrue(s, s.threads[t]))
    && LogIsOrdered(s)
    && KnownIsPast(s)
    && NewestIsOwed(s)
    && AimedAreServed(s)
    && TurnedKnow(s)
    && KnowersTurned(s)
  }

  /** The thread an event moves, if any. */
  predicate Moves(e: Event, t: nat) { !e.PluginStopped? && !e.Retarget? && e.thread == t }

  lemma GateStep(s: State, e: Event)
    requires GateHeldByOne(s) && Enabled(s, e)
    ensures GateHeldByOne(Next(s, e))
  {
  }

  lemma SetStep(s: State, e: Event)
    requires SetIsCurrent(s) && (forall t :: t in s.threads ==> CaptureIsTrue(s, s.threads[t])) && Enabled(s, e)
    ensures SetIsCurrent(Next(s, e))
  {
  }

  lemma OthersStay(s: State, e: Event, t: nat)
    requires Enabled(s, e) && t in s.threads && !Moves(e, t)
    ensures t in Next(s, e).threads && Next(s, e).threads[t] == s.threads[t]
  {
  }

  lemma NewThread(s: State, e: Event, t: nat)
    requires Enabled(s, e) && t in Next(s, e).threads && !Moves(e, t)
    ensures t in s.threads && Next(s, e).threads[t] == s.threads[t]
  {
  }

  /** Versions and history only grow, and a version keeps its set. */
  lemma HistoryGrows(s: State, e: Event)
    requires SetIsCurrent(s) && Enabled(s, e)
    ensures s.history <= Next(s, e).history && s.version <= Next(s, e).version
    ensures Next(s, e).sent == if e.MarkSent? && s.sent < s.threads[e.thread].version then s.threads[e.thread].version else s.sent
  {
  }

  /** A thread that carries a set inside the gate keeps it, or has just read the newest one. */
  lemma CarriedSet(s: State, e: Event, t: nat)
    requires Enabled(s, e) && t in Next(s, e).threads && Carries(Next(s, e).threads[t])
    ensures Carries(Next(s, e).threads[t])
    ensures var p' := Next(s, e).threads[t];
            || (t in s.threads && Carries(s.threads[t]) && s.threads[t].version == p'.version && s.threads[t].ids == p'.ids
                && (Delivers(s.threads[t]) <==> Delivers(p')))
            || (Moves(e, t) && e.Capture? && s.version > s.sent && p'.version == s.version && p'.ids == s.ids)
            || (Moves(e, t) && e.ReadForReplay? && p'.version == s.version && p'.ids == s.ids && p'.Replaying?)
  {
    if !Moves(e, t) {
      NewThread(s, e, t);
    }
  }

  lemma MarkLeavesNothing(s: State, e: Event, t: nat)
    requires GateHeldByOne(s) && Enabled(s, e) && e.MarkSent? && t in Next(s, e).threads
    ensures !Carries(Next(s, e).threads[t])
  {
    if !Moves(e, t) {
      NewThread(s, e, t);
      assert HoldsGate(s.threads[e.thread]);
      assert !HoldsGate(s.threads[t]);
    }
  }

  lemma CaptureStep(s: State, e: Event, t: nat)
    requires Inv(s) && Enabled(s, e) && t in Next(s, e).threads
    ensures CaptureIsTrue(Next(s, e), Next(s, e).threads[t])
  {
    var s' := Next(s, e);
    if e.MarkSent? {
      MarkLeavesNothing(s, e, t);
    } else if Carries(s'.threads[t]) {
      CarriedSet(s, e, t);
      HistoryGrows(s, e);
      if t in s.threads {
        assert CaptureIsTrue(s, s.threads[t]);
      }
    }
  }

  // ----- what reached the plugins --------------------------------------------------------------

  /** The events that hand a payload to a plugin. */
  predicate Calls(e: Event) { e.Send? || e.Replay? }

  lemma LogKeeps(s: State, e: Event)
    requires Enabled(s, e) && !Calls(e)
    ensures Next(s, e).log == s.log
  {
  }

  lemma LogStepQuiet(s: State, e: Event)
    requires Inv(s) && Enabled(s, e) && !Calls(e)
    ensures LogIsOrdered(Next(s, e))
  {
    var s' := Next(s, e);
    LogKeeps(s, e);
    HistoryGrows(s, e);
    forall t, i | t in s'.threads && Carries(s'.threads[t]) && 0 <= i < |s.log|
      ensures s.log[i].version <= s'.threads[t].version
    {
      CarriedSet(s, e, t);
    }
  }

  /** What a call delivers, and to whom. */
  function Delivery(s: State, e: Event): Option<Payload>
    requires Enabled(s, e) && Calls(e)
  {
    var p := s.threads[e.thread];
    var plugin := if e.Send? then e.plugin else p.plugin;
    if plugin in s.running then Some(Payload(plugin, p.version, p.ids)) else None
  }

  lemma CallAppends(s: State, e: Event)
    requires Enabled(s, e) && Calls(e)
    ensures var s', d := Next(s, e), Delivery(s, e);
            && s'.log == (if d.Some? then s.log + [d.value] else s.log)
            && s'.known == (if d.Some? then s.known[d.value.plugin := d.value.version] else s.known)
            && s'.history == s.history && s'.version == s.version && s'.sent == s.sent
  {
  }

  /** While one thread is inside the gate no other carries anything. */
  lemma OneCarrier(s: State, t: nat, u: nat)
    requires GateHeldByOne(s) && t in s.threads && u in s.threads && HoldsGate(s.threads[t]) && HoldsGate(s.threads[u])
    ensures t == u
  {
  }

  lemma CallerIsAlone(s: State, e: Event, t: nat)
    requires GateHeldByOne(s) && Enabled(s, e) && Calls(e) && t in Next(s, e).threads && Carries(Next(s, e).threads[t])
    ensures t == e.thread && Next(s, e).threads[t].version == s.threads[t].version
  {
    CarriedSet(s, e, t);
    OneCarrier(s, t, e.thread);
  }

  lemma LogStepCall(s: State, e: Event)
    requires Inv(s) && Enabled(s, e) && Calls(e)
    ensures LogIsOrdered(Next(s, e))
  {
    var s' := Next(s, e);
    var p := s.threads[e.thread];
    assert CaptureIsTrue(s, p);
    CallAppends(s, e);
    forall t, i | t in s'.threads && Carries(s'.threads[t]) && 0 <= i < |s'.log|
      ensures s'.log[i].version <= s'.threads[t].version
    {
      CallerIsAlone(s, e, t);
    }
  }

  lemma KnownKeeps(s: State, e: Event, p: Plugin)
    requires Enabled(s, e) && !Calls(e) && p in Next(s, e).known
    ensures p in s.known && Next(s, e).known[p] == s.known[p]
    ensures !(e.PluginStarted? && e.plugin == p) && !(e.PluginStopped? && e.plugin == p)
  {
  }

  lemma KnownStep(s: State, e: Event)
    requires Inv(s) && Enabled(s, e)
    ensures KnownIsPast(Next(s, e))
  {
    var s' := Next(s, e);
    HistoryGrows(s, e);
    if Calls(e) {
      CallAppends(s, e);
      assert CaptureIsTrue(s, s.threads[e.thread]);
      forall p, t | p in s'.known && t in s'.threads && Carries(s'.threads[t])
        ensures s'.known[p] <= s'.threads[t].version
      {
        CallerIsAlone(s, e, t);
      }
    } else {
      forall p | p in s'.known
        ensures s'.known[p] <= s'.version
        ensures forall t :: t in s'.threads && Carries(s'.threads[t]) ==> s'.known[p] <= s'.threads[t].version
      {
        KnownKeeps(s, e, p);
        forall t | t in s'.threads && Carries(s'.threads[t])
          ensures s'.known[p] <= s'.threads[t].version
        {
          CarriedSet(s, e, t);
        }
      }
    }
  }

  // ----- nothing is left unsent ----------------------------------------------------------------

  predicate Bumps(s: State, e: Event) {
    e.SetObserved? || e.ConnectionChanged? || (e.Retain? && s.ids * e.removed != {})
  }

  lemma WaiterOwesIt(s: State, t: nat)
    requires t in s.threads && s.threads[t].AwaitsGate?
    ensures SomeoneWaits(s) && BroadcastUnderWay(s)
  {
  }

  /** While a delivery holds the gate, the waiters behind it keep waiting. */
  lemma QueueStays(s: State, e: Event, t: nat)
    requires Inv(s) && Enabled(s, e) && t in s.threads && HoldsGate(s.threads[t]) && SomeoneWaits(s)
    ensures SomeoneWaits(Next(s, e)) && BroadcastUnderWay(Next(s, e))
  {
    var w :| w in s.threads && s.threads[w].AwaitsGate?;
    if !Moves(e, w) {
      OthersStay(s, e, w);
      WaiterOwesIt(Next(s, e), w);
    }
  }

  lemma StillUnderWay(s: State, e: Event)
    requires Inv(s) && Enabled(s, e) && !Bumps(s, e)
    ensures Next(s, e).version > Next(s, e).sent ==> Next(s, e).unled || BroadcastUnderWay(Next(s, e))
  {
    var s' := Next(s, e);
    if s'.version > s'.sent && !s'.unled {
      if e.ReadLeader? {
        assert Delivers(s'.threads[e.thread]);
      } else {
        var t :| t in s.threads && (s.threads[t].AwaitsGate? || s.threads[t].AtGate? || Delivers(s.threads[t]));
        if !Moves(e, t) {
          OthersStay(s, e, t);
        } else if e.MarkSent? {
          assert CaptureIsTrue(s, s.threads[t]);
          QueueStays(s, e, t);
        } else {
          assert t in s'.threads && (s'.threads[t].AtGate? || Delivers(s'.threads[t]));
        }
      }
    }
  }

  lemma OwedStep(s: State, e: Event)
    requires Inv(s) && Enabled(s, e)
    ensures NewestIsOwed(Next(s, e))
  {
    var s' := Next(s, e);
    if Bumps(s, e) {
      WaiterOwesIt(s', e.thread);
    } else {
      StillUnderWay(s, e);
      forall t | t in s'.threads && Delivers(s'.threads[t]) && s'.threads[t].version < s'.version
        ensures SomeoneWaits(s')
      {
        CarriedSet(s, e, t);
        QueueStays(s, e, t);
      }
    }
  }

  // ----- who is aimed at is served ---------------------------------------------------------------

  lemma ReplayStays(s: State, e: Event, p: Plugin)
    requires Inv(s) && Enabled(s, e) && ReplayPending(s, p) && !e.Replay?
    ensures ReplayPending(Next(s, e), p) || Next(s, e).unled
  {
    var t :| t in s.threads && ReplaysTo(s.threads[t], p);
    if !Moves(e, t) {
      OthersStay(s, e, t);
    } else {
      assert e.TakeGate? || e.ReadForReplay?;
      assert Next(s, e).unled || (t in Next(s, e).threads && ReplaysTo(Next(s, e).threads[t], p));
    }
  }

  lemma ReplayStaysOrReaches(s: State, e: Event, p: Plugin)
    requires Inv(s) && Enabled(s, e) && e.Replay? && ReplayPending(s, p) && p in s.running
    ensures ReplayPending(Next(s, e), p) || (p in Next(s, e).known && Next(s, e).known[p] >= s.sent)
  {
    CallAppends(s, e);
    var t :| t in s.threads && ReplaysTo(s.threads[t], p);
    if !Moves(e, t) {
      OthersStay(s, e, t);
    } else {
      assert CaptureIsTrue(s, s.threads[t]);
    }
  }

  /** A broadcast finds a leader and reads whom to address. */
  predicate LiveRead(e: Event) { e.ReadLeader? && e.live }

  /** Only a live reading of the leader, for a broadcast or for a started plugin, adds to those aimed at. */
  lemma AimedBefore(s: State, e: Event, p: Plugin)
    requires Enabled(s, e) && p in Next(s, e).aimed && p in Next(s, e).running
    ensures LiveRead(e) || (e.AskLeader? && ReplayPending(Next(s, e), p))
            || (p in s.aimed && p in s.running && !(e.PluginStarted? && e.plugin == p) && !(e.PluginStopped? && e.plugin == p))
  {
    if p !in s.aimed && e.AskLeader? {
      assert ReplaysTo(Next(s, e).threads[e.thread], p);
    }
  }

  lemma SendingStays(s: State, e: Event)
    requires Enabled(s, e) && SomeoneSends(s)
    ensures SomeoneSends(Next(s, e)) || (e.MarkSent? && s.threads[e.thread].todo == {})
  {
    var t :| t in s.threads && s.threads[t].Sending?;
    if !Moves(e, t) {
      OthersStay(s, e, t);
    } else if e.Send? {
      assert Next(s, e).threads[t].Sending?;
    }
  }

  lemma ServedAfterMark(s: State, e: Event, p: Plugin)
    requires Inv(s) && Enabled(s, e) && e.MarkSent? && p in s.running && p in s.aimed
    ensures var s' := Next(s, e);
            (p in s'.known && s'.known[p] >= s'.sent) || s'.unled || ReplayPending(s', p)
  {
    var phase := s.threads[e.thread];
    assert CaptureIsTrue(s, phase);
    assert Told(s, p, phase.version) || s.unled || ReplayPending(s, p);
    if ReplayPending(s, p) {
      ReplayStays(s, e, p);
    }
  }

  lemma KnownStays(s: State, e: Event, p: Plugin)
    requires Inv(s) && Enabled(s, e) && p in s.known
    requires !(e.PluginStarted? && e.plugin == p) && !(e.PluginStopped? && e.plugin == p)
    ensures p in Next(s, e).known && s.known[p] <= Next(s, e).known[p]
  {
    if Calls(e) {
      CallAppends(s, e);
      assert Carries(s.threads[e.thread]);
    }
  }

  lemma ServedNow(s: State, e: Event, p: Plugin)
    requires Inv(s) && Enabled(s, e) && p in Next(s, e).running && p in Next(s, e).aimed
    ensures var s' := Next(s, e);
            (p in s'.known && s'.known[p] >= s'.sent) || SomeoneSends(s') || s'.unled || ReplayPending(s', p)
  {
    var s' := Next(s, e);
    AimedBefore(s, e, p);
    HistoryGrows(s, e);
    if LiveRead(e) {
      assert s'.threads[e.thread].Sending?;
    } else if ReplayPending(s', p) {
    } else if e.MarkSent? {
      ServedAfterMark(s, e, p);
    } else if SomeoneSends(s) {
      SendingStays(s, e);
    } else if ReplayPending(s, p) {
      if e.Replay? {
        ReplayStaysOrReaches(s, e, p);
      } else {
        ReplayStays(s, e, p);
      }
    } else if p in s.known {
      KnownStays(s, e, p);
    }
  }

  lemma SendingBefore(s: State, e: Event, t: nat)
    requires Enabled(s, e) && t in Next(s, e).threads && Next(s, e).threads[t].Sending?
    ensures var p' := Next(s, e).threads[t];
            || (t in s.threads && s.threads[t].Sending? && p'.version == s.threads[t].version
                && p'.todo == (if e.Send? && e.thread == t then s.threads[t].todo - {e.plugin} else s.threads[t].todo))
            || (LiveRead(e) && e.thread == t && p'.todo == s.targets && Next(s, e).aimed == s.targets
                && t in s.threads && s.threads[t].Captured? && p'.version == s.threads[t].version)
  {
    if !Moves(e, t) {
      NewThread(s, e, t);
    }
  }

  lemma ServedWhileSending(s: State, e: Event, t: nat, p: Plugin)
    requires Inv(s) && Enabled(s, e)
    requires var s' := Next(s, e);
             t in s'.threads && s'.threads[t].Sending? && p in s'.running && p in s'.aimed && p !in s'.threads[t].todo
    ensures var s' := Next(s, e);
            Told(s', p, s'.threads[t].version) || s'.unled || ReplayPending(s', p)
  {
    var s' := Next(s, e);
    SendingBefore(s, e, t);
    AimedBefore(s, e, p);
    assert !e.Replay?;
    if e.Send? && e.plugin == p && p in s.threads[t].todo {
      OneCarrier(s, t, e.thread);
      CallAppends(s, e);
    } else if !LiveRead(e) && !ReplayPending(s', p) {
      if ReplayPending(s, p) {
        ReplayStays(s, e, p);
      } else if Told(s, p, s.threads[t].version) {
        KnownStays(s, e, p);
        KnownStep(s, e);
      }
    }
  }

  lemma ServedStep(s: State, e: Event)
    requires Inv(s) && Enabled(s, e)
    ensures AimedAreServed(Next(s, e))
  {
    var s' := Next(s, e);
    forall p | p in s'.running && p in s'.aimed
      ensures (p in s'.known && s'.known[p] >= s'.sent) || SomeoneSends(s') || s'.unled || ReplayPending(s', p)
    {
      ServedNow(s, e, p);
    }
    forall t, p | t in s'.threads && s'.threads[t].Sending? && p in s'.running && p in s'.aimed && p !in s'.threads[t].todo
      ensures Told(s', p, s'.threads[t].version) || s'.unled || ReplayPending(s', p)
    {
      ServedWhileSending(s, e, t, p);
    }
  }

  // ----- who had its turn knows, and who knows had it ---------------------------------------------

  lemma TurnedBefore(s: State, e: Event, p: Plugin)
    requires Enabled(s, e) && p in Next(s, e).turned
    ensures (e.Send? && e.plugin == p && p in s.running)
            || (p in s.turned && !LiveRead(e) && !(e.PluginStarted? && e.plugin == p) && !(e.PluginStopped? && e.plugin == p))
  {
  }

  lemma TurnedIsServed(s: State, e: Event, p: Plugin)
    requires Inv(s) && Enabled(s, e) && p in Next(s, e).turned
    ensures var s' := Next(s, e); p in s'.known && (s'.known[p] >= s'.sent || SomeoneSends(s'))
  {
    var s' := Next(s, e);
    TurnedBefore(s, e, p);
    HistoryGrows(s, e);
    if e.Send? && e.plugin == p && p in s.running {
      CallAppends(s, e);
      assert s'.threads[e.thread].Sending?;
    } else {
      KnownStays(s, e, p);
      if e.MarkSent? {
        assert s.known[p] >= s.threads[e.thread].version;
        assert CaptureIsTrue(s, s.threads[e.thread]);
      } else if SomeoneSends(s) {
        SendingStays(s, e);
      }
    }
  }

  lemma TurnedWhileSending(s: State, e: Event, t: nat, p: Plugin)
    requires Inv(s) && Enabled(s, e)
    requires t in Next(s, e).threads && Next(s, e).threads[t].Sending? && p in Next(s, e).turned
    ensures p in Next(s, e).known && Next(s, e).known[p] >= Next(s, e).threads[t].version
  {
    TurnedBefore(s, e, p);
    SendingBefore(s, e, t);
    if e.Send? && e.plugin == p && p in s.running {
      CallAppends(s, e);
      OneCarrier(s, t, e.thread);
    } else {
      KnownStays(s, e, p);
    }
  }

  lemma TurnedStep(s: State, e: Event)
    requires Inv(s) && Enabled(s, e)
    ensures TurnedKnow(Next(s, e))
  {
    var s' := Next(s, e);
    forall p | p in s'.turned ensures p in s'.known && (s'.known[p] >= s'.sent || SomeoneSends(s')) {
      TurnedIsServed(s, e, p);
    }
    forall t, p | t in s'.threads && s'.threads[t].Sending? && p in s'.turned
      ensures p in s'.known && s'.known[p] >= s'.threads[t].version
    {
      TurnedWhileSending(s, e, t, p);
    }
    forall t | t in s'.threads && s'.threads[t].Sending? ensures s'.threads[t].todo <= s'.aimed + s'.reborn {
      TodoStep(s, e, t);
    }
  }

  lemma CaughtStep(s: State, e: Event, p: Plugin)
    requires Inv(s) && Enabled(s, e) && p in Next(s, e).caught
    ensures Told(Next(s, e), p, Next(s, e).version)
  {
    if Calls(e) {
      CallAppends(s, e);
      assert CaptureIsTrue(s, s.threads[e.thread]);
    }
    if p in s.caught && !Bumps(s, e) {
      KnownStays(s, e, p);
      KnownStep(s, e);
    }
  }

  lemma KnowerStep(s: State, e: Event, p: Plugin)
    requires Inv(s) && Enabled(s, e) && Told(Next(s, e), p, Next(s, e).version)
    ensures var s' := Next(s, e);
            p in s'.caught || (p in s'.turned && (s'.sent == s'.version || SendsNewest(s')))
  {
    var s' := Next(s, e);
    HistoryGrows(s, e);
    if Calls(e) {
      CallAppends(s, e);
      KnowerAfterCall(s, e, p);
    } else {
      KnownKeeps(s, e, p);
      assert s.known[p] <= s.version;
      if e.ReadLeader? {
        ReaderFindsNoKnower(s, e, p);
      } else if p !in s.caught {
        KnowerOtherwise(s, e, p);
      }
    }
  }

  lemma NobodyElseSends(s: State, t: nat)
    requires GateHeldByOne(s) && t in s.threads && HoldsGate(s.threads[t]) && !s.threads[t].Sending?
    ensures !SendsNewest(s)
  {
    forall u | u in s.threads && s.threads[u].Sending? ensures u == t {
      OneCarrier(s, t, u);
    }
  }

  lemma KnowerAfterCall(s: State, e: Event, p: Plugin)
    requires Inv(s) && Enabled(s, e) && Calls(e) && Told(Next(s, e), p, Next(s, e).version)
    ensures var s' := Next(s, e);
            p in s'.caught || (p in s'.turned && (s'.sent == s'.version || SendsNewest(s')))
  {
    var s', phase := Next(s, e), s.threads[e.thread];
    CallAppends(s, e);
    if e.Send? {
      assert s'.threads[e.thread].Sending? && s'.threads[e.thread].version == phase.version;
      if SendsNewest(s) {
        var u :| u in s.threads && s.threads[u].Sending? && s.threads[u].version == s.version;
        OneCarrier(s, u, e.thread);
      }
    } else {
      NobodyElseSends(s, e.thread);
    }
  }

  /** A broadcast that has just captured an unsent version finds nobody who knows it, but by replay. */
  lemma ReaderFindsNoKnower(s: State, e: Event, p: Plugin)
    requires Inv(s) && Enabled(s, e) && e.ReadLeader? && Told(s, p, s.version)
    ensures p in s.caught
  {
    assert CaptureIsTrue(s, s.threads[e.thread]);
    NobodyElseSends(s, e.thread);
  }

  lemma KnowerOtherwise(s: State, e: Event, p: Plugin)
    requires Inv(s) && Enabled(s, e) && !Calls(e) && Told(s, p, s.version) && p !in s.caught && !Bumps(s, e) && !e.ReadLeader?
    requires !(e.PluginStarted? && e.plugin == p) && !(e.PluginStopped? && e.plugin == p)
    ensures var s' := Next(s, e);
            p in s'.turned && (s'.sent == s'.version || SendsNewest(s'))
  {
    var s' := Next(s, e);
    assert p in s.turned && (s.sent == s.version || SendsNewest(s));
    if s.sent != s.version {
      var u :| u in s.threads && s.threads[u].Sending? && s.threads[u].version == s.version;
      if !Moves(e, u) {
        OthersStay(s, e, u);
      }
    }
  }

  lemma TodoStep(s: State, e: Event, t: nat)
    requires Inv(s) && Enabled(s, e) && t in Next(s, e).threads && Next(s, e).threads[t].Sending?
    ensures Next(s, e).threads[t].todo <= Next(s, e).aimed + Next(s, e).reborn
  {
    SendingBefore(s, e, t);
    if LiveRead(e) {
      OneCarrier(s, t, e.thread);
    }
  }

  lemma KnowersStep(s: State, e: Event)
    requires Inv(s) && Enabled(s, e)
    ensures KnowersTurned(Next(s, e))
  {
    var s' := Next(s, e);
    forall p | Told(s', p, s'.version)
      ensures p in s'.caught || (p in s'.turned && (s'.sent == s'.version || SendsNewest(s')))
    {
      KnowerStep(s, e, p);
    }
    forall p | p in s'.caught
      ensures Told(s', p, s'.version)
    {
      CaughtStep(s, e, p);
    }
  }

  lemma StepKeepsInv(s: State, e: Event)
    requires Inv(s) && Enabled(s, e)
    ensures Inv(Next(s, e))
  {
    GateStep(s, e);
    SetStep(s, e);
    forall t | t in Next(s, e).threads ensures CaptureIsTrue(Next(s, e), Next(s, e).threads[t]) {
      CaptureStep(s, e, t);
    }
    if Calls(e) {
      LogStepCall(s, e);
    } else {
      LogStepQuiet(s, e);
    }
    KnownStep(s, e);
    OwedStep(s, e);
    ServedStep(s, e);
    TurnedStep(s, e);
    KnowersStep(s, e);
  }

  // ----- whole runs ----------------------------------------------------------------------------

  ghost predicate IsRun(states: seq<State>, events: seq<Event>) {
    && |states| == |events| + 1 && Initial(states[0])
    && forall i :: 0 <= i < |events| ==> Enabled(states[i], events[i]) && states[i + 1] == Next(states[i], events[i])
  }

  lemma {:induction false} EveryRunKeepsInv(states: seq<State>, events: seq<Event>, n: nat)
    requires IsRun(states, events) && n < |states|
    ensures Inv(states[n])
    decreases n
  {
    if n > 0 {
      EveryRunKeepsInv(states, events, n - 1);
      StepKeepsInv(states[n - 1], events[n - 1]);
    }
  }

  // ----- what is observed, told by the calls of a run --------------------------------------------

  function Observes(events: seq<Event>, x: NodeId): nat -> bool {
    (i: nat) => i < |events| && events[i].SetObserved? && x in events[i].ids
  }

  function Unobserves(events: seq<Event>, x: NodeId): nat -> bool {
    (i: nat) => i < |events| && (events[i].SetObserved? || (events[i].Retain? && x in events[i].removed))
  }

  /** The last set handed in lists x, and no removal reported since took it out. */
  ghost predicate Observed(events: seq<Event>, n: nat, x: NodeId) {
    Since(Observes(events, x), Unobserves(events, x), n)
  }

  /** ids is what the calls before step n leave observed. */
  ghost predicate IsObserved(events: seq<Event>, n: nat, ids: set<NodeId>) {
    forall x :: x in ids <==> Observed(events, n, x)
  }

  lemma ObservedStep(s: State, e: Event, x: NodeId)
    requires Enabled(s, e)
    ensures x in Next(s, e).ids <==>
              (e.SetObserved? && x in e.ids) || (x in s.ids && !e.SetObserved? && !(e.Retain? && x in e.removed))
  {
    if e.Retain? {
      assert x in s.ids * e.removed <==> x in s.ids && x in e.removed;
    }
  }

  lemma {:induction false} ObservedIsTold(states: seq<State>, events: seq<Event>, n: nat, x: NodeId)
    requires IsRun(states, events) && n < |states|
    ensures x in states[n].ids <==> Observed(events, n, x)
    decreases n
  {
    if n > 0 {
      ObservedIsTold(states, events, n - 1, x);
      SinceGrows(Observes(events, x), Unobserves(events, x), n - 1);
      ObservedStep(states[n - 1], events[n - 1], x);
    }
  }

  /** A set is replaced, never added to: at every point of every run it is what the last call set, less what was removed since. */
  lemma SetIsLastSet(states: seq<State>, events: seq<Event>, n: nat)
    requires IsRun(states, events) && n < |states|
    ensures IsObserved(events, n, states[n].ids)
  {
    forall x ensures x in states[n].ids <==> Observed(events, n, x) { ObservedIsTold(states, events, n, x); }
  }

  lemma VersionsMove(s: State, e: Event)
    requires SetIsCurrent(s) && Enabled(s, e)
    ensures s.version <= Next(s, e).version <= s.version + 1 && s.history <= Next(s, e).history
  {
  }

  lemma {:induction false} VersionsGrow(states: seq<State>, events: seq<Event>, m: nat, n: nat)
    requires IsRun(states, events) && m <= n < |states|
    ensures states[m].version <= states[n].version
    decreases n
  {
    if m < n {
      VersionsGrow(states, events, m, n - 1);
      EveryRunKeepsInv(states, events, n - 1);
      VersionsMove(states[n - 1], events[n - 1]);
    }
  }

  /** The last step at which a version was the newest one; its set is what was observed then. */
  lemma {:induction false} VersionStep(states: seq<State>, events: seq<Event>, n: nat, v: nat) returns (m: nat)
    requires IsRun(states, events) && n < |states| && v <= states[n].version
    ensures m <= n && states[m].version == v
    ensures v < |states[n].history| && states[n].history[v] == states[m].ids && IsObserved(events, m, states[m].ids)
    decreases n
  {
    EveryRunKeepsInv(states, events, n);
    if v == states[n].version {
      m := n;
      SetIsLastSet(states, events, n);
    } else {
      EveryRunKeepsInv(states, events, n - 1);
      VersionsMove(states[n - 1], events[n - 1]);
      m := VersionStep(states, events, n - 1, v);
    }
  }

  /**
   Deliveries never go back: at every point of every run, of two payloads that
   reached plugins the later one carries no older version, and each carries what
   the calls had left observed at a step where its version was the newest.
   */
  lemma DeliveriesNeverGoBack(states: seq<State>, events: seq<Event>, n: nat, i: nat, j: nat) returns (a: nat, b: nat)
    requires IsRun(states, events) && n < |states| && i < j < |states[n].log|
    ensures a <= b <= n && states[n].log[i].version <= states[n].log[j].version
    ensures states[a].version == states[n].log[i].version && IsObserved(events, a, states[n].log[i].ids)
    ensures states[b].version == states[n].log[j].version && IsObserved(events, b, states[n].log[j].ids)
  {
    var s := states[n];
    EveryRunKeepsInv(states, events, n);
    b := VersionStep(states, events, n, s.log[j].version);
    a := b;
    if s.log[i].version < s.log[j].version {
      a := VersionStep(states, events, n, s.log[i].version);
      if a > b {
        VersionsGrow(states, events, b, a);
      }
    }
  }

  /** Payload i is the last that reached p. */
  predicate LastTo(log: seq<Payload>, i: nat, p: Plugin) {
    i < |log| && log[i].plugin == p && forall j :: i < j < |log| ==> log[j].plugin != p
  }

  /** What a running plugin was last told is on record as its last payload. */
  ghost predicate KnowsLast(s: State, p: Plugin) {
    p in s.known ==> exists i: nat :: LastTo(s.log, i, p) && s.log[i].version == s.known[p]
  }

  lemma KnowsLastStep(s: State, e: Event, p: Plugin)
    requires Enabled(s, e) && KnowsLast(s, p)
    ensures KnowsLast(Next(s, e), p)
  {
    var s' := Next(s, e);
    if p in s'.known {
      if Calls(e) {
        CallAppends(s, e);
        var d := Delivery(s, e);
        if d.Some? && d.value.plugin == p {
          assert LastTo(s'.log, |s.log|, p);
        } else {
          var i: nat :| LastTo(s.log, i, p) && s.log[i].version == s.known[p];
          assert LastTo(s'.log, i, p);
        }
      } else {
        LogKeeps(s, e);
        KnownKeeps(s, e, p);
      }
    }
  }

  lemma {:induction false} EveryRunKnowsLast(states: seq<State>, events: seq<Event>, n: nat, p: Plugin)
    requires IsRun(states, events) && n < |states|
    ensures KnowsLast(states[n], p)
    decreases n
  {
    if n > 0 {
      EveryRunKnowsLast(states, events, n - 1, p);
      KnowsLastStep(states[n - 1], events[n - 1], p);
    }
  }

  // ----- who was addressed, told by the events of a run -----------------------------------------

  /** A plugin's start finds a leader and reads whether the plugin is addressable. */
  predicate AsksFor(s: State, e: Event, p: Plugin) {
    e.AskLeader? && e.live && e.thread in s.threads && s.threads[e.thread] == AsksLeader(p)
  }

  function Addresses(states: seq<State>, events: seq<Event>, p: Plugin): nat -> bool {
    (i: nat) => i < |events| && i < |states| && p in states[i].targets && (LiveRead(events[i]) || AsksFor(states[i], events[i], p))
  }

  function Readdresses(events: seq<Event>, p: Plugin): nat -> bool {
    (i: nat) => i < |events| && (LiveRead(events[i]) || (events[i].PluginStarted? && events[i].plugin == p))
  }

  /** p was addressable at the last live broadcast since its start, or when its start was served later. */
  ghost predicate Addressed(states: seq<State>, events: seq<Event>, n: nat, p: Plugin) {
    Since(Addresses(states, events, p), Readdresses(events, p), n)
  }

  function Turns(states: seq<State>, events: seq<Event>, p: Plugin): nat -> bool {
    (i: nat) => i < |events| && i < |states| && events[i].Send? && events[i].plugin == p && p in states[i].running
  }

  function Unturns(events: seq<Event>, p: Plugin): nat -> bool {
    (i: nat) => i < |events| &&
      (LiveRead(events[i]) || ((events[i].PluginStarted? || events[i].PluginStopped?) && events[i].plugin == p))
  }

  /** The last live broadcast had its turn for p, as it runs now. */
  ghost predicate Turned(states: seq<State>, events: seq<Event>, n: nat, p: Plugin) {
    Since(Turns(states, events, p), Unturns(events, p), n)
  }

  function Starts(events: seq<Event>, p: Plugin): nat -> bool {
    (i: nat) => i < |events| && events[i].PluginStarted? && events[i].plugin == p
  }

  function Broadcasts(events: seq<Event>): nat -> bool {
    (i: nat) => i < |events| && LiveRead(events[i])
  }

  /** p started after the last live broadcast. */
  ghost predicate StartedSince(events: seq<Event>, n: nat, p: Plugin) {
    Since(Starts(events, p), Broadcasts(events), n)
  }

  function Replays(states: seq<State>, events: seq<Event>, p: Plugin): nat -> bool {
    (i: nat) => i < |events| && i < |states| && Catches(states[i], events[i], p)
  }

  function Outdates(states: seq<State>, events: seq<Event>, p: Plugin): nat -> bool {
    (i: nat) => i < |events| && i < |states| &&
      (Bumps(states[i], events[i]) || ((events[i].PluginStarted? || events[i].PluginStopped?) && events[i].plugin == p))
  }

  /** A replay reached p, and neither the set nor the process changed since. */
  ghost predicate Replayed(states: seq<State>, events: seq<Event>, n: nat, p: Plugin) {
    Since(Replays(states, events, p), Outdates(states, events, p), n)
  }

  lemma {:induction false} HistoryTold(states: seq<State>, events: seq<Event>, n: nat, p: Plugin)
    requires IsRun(states, events) && n < |states|
    ensures p in states[n].aimed <==> Addressed(states, events, n, p)
    ensures p in states[n].turned <==> Turned(states, events, n, p)
    ensures p in states[n].reborn <==> StartedSince(events, n, p)
    ensures p in states[n].caught <==> Replayed(states, events, n, p)
    decreases n
  {
    if n > 0 {
      HistoryTold(states, events, n - 1, p);
      SinceGrows(Addresses(states, events, p), Readdresses(events, p), n - 1);
      SinceGrows(Turns(states, events, p), Unturns(events, p), n - 1);
      SinceGrows(Starts(events, p), Broadcasts(events), n - 1);
      SinceGrows(Replays(states, events, p), Outdates(states, events, p), n - 1);
      MarksStep(states[n - 1], events[n - 1], p);
    }
  }

  function Stops(events: seq<Event>, p: Plugin): nat -> bool {
    (i: nat) => i < |events| && events[i].PluginStopped? && events[i].plugin == p
  }

  function Targets(events: seq<Event>, p: Plugin): nat -> bool {
    (i: nat) => i < |events| && events[i].Retarget? && p in events[i].targets
  }

  function Retargets(events: seq<Event>): nat -> bool {
    (i: nat) => i < |events| && events[i].Retarget?
  }

  /** A plugin runs when it was started and not stopped since. */
  lemma {:induction false} RunningTold(states: seq<State>, events: seq<Event>, n: nat, p: Plugin)
    requires IsRun(states, events) && n < |states|
    ensures p in states[n].running <==> Since(Starts(events, p), Stops(events, p), n)
    decreases n
  {
    if n > 0 {
      RunningTold(states, events, n - 1, p);
      SinceGrows(Starts(events, p), Stops(events, p), n - 1);
      AudienceStep(states[n - 1], events[n - 1], p);
    }
  }

  predicate NeverRetargeted(events: seq<Event>, n: nat) {
    forall i :: 0 <= i < n && i < |events| ==> !events[i].Retarget?
  }

  /** It is addressable when the last change of targets names it, or it was so from the start. */
  lemma {:induction false} TargetsTold(states: seq<State>, events: seq<Event>, n: nat, p: Plugin)
    requires IsRun(states, events) && n < |states|
    ensures p in states[n].targets <==>
              Since(Targets(events, p), Retargets(events), n) || (p in states[0].targets && NeverRetargeted(events, n))
    decreases n
  {
    if n > 0 {
      TargetsTold(states, events, n - 1, p);
      SinceGrows(Targets(events, p), Retargets(events), n - 1);
      AudienceStep(states[n - 1], events[n - 1], p);
      assert NeverRetargeted(events, n) <==> NeverRetargeted(events, n - 1) && !events[n - 1].Retarget?;
    }
  }

  lemma AudienceStep(s: State, e: Event, p: Plugin)
    requires Enabled(s, e)
    ensures p in Next(s, e).running <==>
              (e.PluginStarted? && e.plugin == p) || (p in s.running && !(e.PluginStopped? && e.plugin == p))
    ensures p in Next(s, e).targets <==> if e.Retarget? then p in e.targets else p in s.targets
  {
  }

  lemma MarksStep(s: State, e: Event, p: Plugin)
    requires Enabled(s, e)
    ensures p in Next(s, e).aimed <==>
              (p in s.targets && (LiveRead(e) || AsksFor(s, e, p)))
              || (p in s.aimed && !LiveRead(e) && !(e.PluginStarted? && e.plugin == p))
    ensures p in Next(s, e).turned <==>
              (e.Send? && e.plugin == p && p in s.running)
              || (p in s.turned && !LiveRead(e) && !((e.PluginStarted? || e.PluginStopped?) && e.plugin == p))
    ensures p in Next(s, e).reborn <==>
              (e.PluginStarted? && e.plugin == p) || (p in s.reborn && !(LiveRead(e)))
    ensures p in Next(s, e).caught <==>
              Catches(s, e, p)
              || (p in s.caught && !Bumps(s, e) && !((e.PluginStarted? || e.PluginStopped?) && e.plugin == p))
  {
  }

  /** Nothing is under way, and no delivery was lost to a missing leader. */
  predicate Quiet(s: State) { s.threads == map[] && !s.unled }

  /**
   Convergence: in every run, whatever the interleaving, however often plugins
   crash and restart and whatever becomes of the connection's protocol, once all
   is quiet the newest version is marked as sent, and every running plugin that
   was addressable at the last live broadcast since its start, or when its start
   was served after that, was last told exactly what the calls so far leave
   observed.
   */
  lemma QuietMeansDelivered(states: seq<State>, events: seq<Event>, n: nat, p: Plugin)
    requires IsRun(states, events) && n < |states| && Quiet(states[n])
    ensures states[n].sent == states[n].version
    ensures p in states[n].running && Addressed(states, events, n, p) ==>
              Told(states[n], p, states[n].version) && LastToldObserved(states[n].log, events, n, p)
  {
    EveryRunKeepsInv(states, events, n);
    HistoryTold(states, events, n, p);
    if p in states[n].running && Addressed(states, events, n, p) {
      ToldMeansObserved(states, events, n, p);
    }
  }

  /** The last payload that reached p carries what the calls before step n leave observed. */
  ghost predicate LastToldObserved(log: seq<Payload>, events: seq<Event>, n: nat, p: Plugin) {
    exists i: nat :: LastTo(log, i, p) && IsObserved(events, n, log[i].ids)
  }

  lemma ToldMeansObserved(states: seq<State>, events: seq<Event>, n: nat, p: Plugin)
    requires IsRun(states, events) && n < |states| && Told(states[n], p, states[n].version)
    ensures LastToldObserved(states[n].log, events, n, p)
  {
    EveryRunKnowsLast(states, events, n, p);
    EveryRunKeepsInv(states, events, n);
    SetIsLastSet(states, events, n);
    var i: nat :| LastTo(states[n].log, i, p) && states[n].log[i].version == states[n].known[p];
    assert states[n].log[i].ids == states[n].ids;
  }

  /**
   And exactly for whom: a running plugin knows the newest version if and only if
   the last live broadcast had its turn for it as it runs now, or a replay reached
   it since the set last changed.
   */
  lemma DeliveredMeansTurned(states: seq<State>, events: seq<Event>, n: nat, p: Plugin)
    requires IsRun(states, events) && n < |states| && Quiet(states[n]) && p in states[n].running
    ensures Told(states[n], p, states[n].version) <==> Turned(states, events, n, p) || Replayed(states, events, n, p)
  {
    QuietMeansDelivered(states, events, n, p);
    EveryRunKeepsInv(states, events, n);
    HistoryTold(states, events, n, p);
  }

  /**
   In terms of who is addressable: a plugin that did not start since the last live broadcast
   knows the newest version if and only if it was addressable at that broadcast
   or a replay reached it since the set last changed.
   */
  lemma DeliveredMeansAddressed(states: seq<State>, events: seq<Event>, n: nat, p: Plugin)
    requires IsRun(states, events) && n < |states| && Quiet(states[n])
    requires p in states[n].running && !StartedSince(events, n, p)
    ensures Told(states[n], p, states[n].version) <==> Addressed(states, events, n, p) || Replayed(states, events, n, p)
  {
    EveryRunKeepsInv(states, events, n);
    HistoryTold(states, events, n, p);
  }

  /** The state of a run in which one plugin runs that nobody addresses, at the given version. */
  function Unaddressed(p: Plugin, version: nat, sent: nat, history: seq<set<NodeId>>, reborn: set<Plugin>): State {
    State({}, version, sent, None, map[], {}, {p}, map[], [], history, false, {}, {}, {}, reborn)
  }

  function Broadcasting(p: Plugin, sent: nat, phase: Phase, reborn: set<Plugin>): State {
    Unaddressed(p, 1, sent, [{}, {}], reborn).(threads := map[0 := phase], gate := if HoldsGate(phase) then Some(0) else None)
  }

  /** Some run ends in the state. */
  ghost predicate Reachable(s: State) {
    exists states, events :: IsRun(states, events) && states[|events|] == s
  }

  lemma ReachesInitial(s: State)
    requires Initial(s)
    ensures Reachable(s)
  {
    assert IsRun([s], []) && [s][0] == s;
  }

  lemma ReachesNext(s: State, e: Event, s': State)
    requires Reachable(s) && Enabled(s, e) && s' == Next(s, e)
    ensures Reachable(s')
  {
    var states, events :| IsRun(states, events) && states[|events|] == s;
    var longer, more := states + [s'], events + [e];
    assert IsRun(longer, more) && longer[|more|] == s';
  }

  lemma LateAddresseeStarts(p: Plugin)
    ensures Reachable(Unaddressed(p, 0, 0, [{}], {p}))
  {
    var s := Unaddressed(p, 0, 0, [{}], {p});
    var start, asking := s.(running := {}, reborn := {}), s.(threads := map[0 := AsksLeader(p)]);
    ReachesInitial(start);
    assert start.known - {p} == map[] && start.running + {p} == {p} && start.reborn + {p} == {p};
    ReachesNext(start, PluginStarted(0, p), asking);
    assert asking.threads - {0} == map[];
    ReachesNext(asking, AskLeader(0, true), s);
  }

  lemma LateAddresseeChanges(p: Plugin)
    ensures Reachable(Broadcasting(p, 0, AwaitsGate, {p}))
  {
    LateAddresseeStarts(p);
    var s := Unaddressed(p, 0, 0, [{}], {p});
    assert s.history + [s.ids] == [{}, {}];
    ReachesNext(s, ConnectionChanged(0), Broadcasting(p, 0, AwaitsGate, {p}));
  }

  lemma LateAddresseeCaptures(p: Plugin)
    ensures Reachable(Broadcasting(p, 0, Captured(1, {}), {p}))
  {
    LateAddresseeChanges(p);
    ReachesNext(Broadcasting(p, 0, AwaitsGate, {p}), TakeGate(0), Broadcasting(p, 0, AtGate, {p}));
    ReachesNext(Broadcasting(p, 0, AtGate, {p}), Capture(0), Broadcasting(p, 0, Captured(1, {}), {p}));
  }

  lemma LateAddresseeSends(p: Plugin)
    ensures Reachable(Broadcasting(p, 1, Leaving, {}))
  {
    LateAddresseeCaptures(p);
    ReachesNext(Broadcasting(p, 0, Captured(1, {}), {p}), ReadLeader(0, true), Broadcasting(p, 0, Sending(1, {}, {}), {}));
    ReachesNext(Broadcasting(p, 0, Sending(1, {}, {}), {}), MarkSent(0), Broadcasting(p, 1, Leaving, {}));
  }

  /**
   The condition matters: a plugin that becomes addressable after the last
   broadcast, because a session that does not lead brought the protocol, is
   running and addressable, all is quiet, and it was never told anything.
   */
  lemma LateAddresseeIsNotTold(p: Plugin)
    ensures var s := Unaddressed(p, 1, 1, [{}, {}], {}).(targets := {p});
            && Reachable(s)
            && Quiet(s) && s.sent == s.version == 1 && p in s.running && p in s.targets
            && p !in s.known && s.log == []
  {
    LateAddresseeSends(p);
    var before, after := Broadcasting(p, 1, Leaving, {}), Unaddressed(p, 1, 1, [{}, {}], {});
    assert before.threads - {0} == map[];
    ReachesNext(before, ReleaseGate(0), after);
    ReachesNext(after, Retarget({p}), after.(targets := {p}));
  }

  /** Nothing is lost to a missing leader in a run that always finds one. */
  lemma {:induction false} LiveLeaderLosesNothing(states: seq<State>, events: seq<Event>, n: nat)
    requires IsRun(states, events) && n < |states|
    requires forall i :: 0 <= i < n && (events[i].ReadLeader? || events[i].AskLeader?) ==> events[i].live
    ensures !states[n].unled
    decreases n
  {
    if n > 0 {
      LiveLeaderLosesNothing(states, events, n - 1);
    }
  }
}
