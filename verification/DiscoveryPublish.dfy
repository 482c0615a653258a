/**
 One inbound publish, from the plugin's call to the redraw: who may publish, how
 often, into what, and what the host then stops watching
 (internal/usecase/discovery_publish.go). A publish is one atomic step here; the
 leader's answers are two lookups handed in, and the observed sets are kept as
 the observer keeps them, without its broadcast.
 */
module DiscoveryPublish {
  import opened Basics
  import opened Discovery
  import opened TreePublish
  import opened StoreRuns
  import opened DiscoveryStore
  import Pace

  /** The leader's two lookups: a session's connection, and a connection's leading session. */
  datatype Lead = Lead(connectionOf: map<string, string>, leading: map<string, string>) {
    /** The connection a session speaks for: only while it leads it. */
    function SpeaksFor(session: string): Option<string> {
      if session in connectionOf && connectionOf[session] in leading && leading[connectionOf[session]] == session
      then Some(connectionOf[session]) else None
    }
  }

  datatype Publication = Publication(session: string, node: string, state: string, message: string, children: seq<Node>)

  predicate Watches(observed: map<string, set<string>>, connection: string, node: string) {
    connection in observed && node in observed[connection]
  }

  class Router {
    const store: Store
    const limiter: Pace.PublishLimiter
    const coalescer: Pace.EmitCoalescer
    var observed: map<string, set<string>>

    constructor (store: Store, limiter: Pace.PublishLimiter, coalescer: Pace.EmitCoalescer)
      ensures this.store == store && this.limiter == limiter && this.coalescer == coalescer && observed == map[]
    {
      this.store, this.limiter, this.coalescer, observed := store, limiter, coalescer, map[];
    }

    /** Drops removed ids from a connection's set; changed says whether the plugins must hear of it. */
    method Retain(connection: string, removed: seq<string>) returns (changed: bool)
      modifies this
      ensures forall c, id :: Watches(observed, c, id) <==> Watches(old(observed), c, id) && !(c == connection && id in removed)
      ensures changed <==> exists i :: 0 <= i < |removed| && Watches(old(observed), connection, removed[i])
    {
      changed := false;
      if connection !in observed {
        return;
      }
      var ids := observed[connection];
      for i := 0 to |removed|
        invariant forall id :: id in ids <==> id in old(observed)[connection] && id !in removed[..i]
        invariant changed <==> exists j :: 0 <= j < i && removed[j] in old(observed)[connection]
      {
        assert removed[..i + 1] == removed[..i] + [removed[i]];
        if removed[i] in ids {
          ids := ids - {removed[i]};
          changed := true;
        }
      }
      assert removed[..|removed|] == removed;
      observed := observed[connection := ids];
    }

    /** Whether the publish gets as far as the store. */
    ghost predicate Passes(lead: Lead, plugin: string, p: Publication, at: int)
      reads this, limiter
    {
      && lead.SpeaksFor(p.session).Some?
      && Pace.Admits(limiter.Lane(Pace.Key(lead.SpeaksFor(p.session).value, plugin)), at)
      && Watches(observed, lead.SpeaksFor(p.session).value, p.node)
    }

    /**
     A publish reaches the store exactly when its session leads, the plugin's
     budget admits it and the node is observed; every call of a leading session
     is counted. It then changes that one tree, the ids that left the tree are no
     longer observed and no others are dropped, and the node is redrawn unless
     the snapshot was refused. Any other publish changes nothing but the count.
     */
    method Apply(lead: Lead, plugin: string, p: Publication, at: int)
      returns (removed: seq<string>, refusal: Option<Refusal>, ghost outcome: Outcome)
      requires store.Valid()
      modifies this, store, store.trees.Values, limiter, coalescer
      ensures store.Valid() && forall k :: Sound(old(store.At(k)))
      ensures var passes := old(Passes(lead, plugin, p, at));
              forall k :: store.At(k) ==
                if passes && k == Key(lead.SpeaksFor(p.session).value, plugin)
                then PublishTo(old(store.At(k)), p.node, p.state, p.message, p.children)
                else old(store.At(k))
      ensures Answers(outcome, removed, refusal)
      ensures !old(Passes(lead, plugin, p, at)) ==> outcome == Ignored && observed == old(observed)
      ensures old(Passes(lead, plugin, p, at)) ==>
                var c := lead.SpeaksFor(p.session).value;
                && outcome == Outcomes(old(store.At(Key(c, plugin))), p.node, p.state, p.message, p.children)
                && (forall x, id :: Watches(observed, x, id) <==> Watches(old(observed), x, id) && !(x == c && id in removed))
      ensures forall key :: limiter.Lane(key) ==
                if lead.SpeaksFor(p.session) == Some(key.connection) && key.item == plugin
                then Some(Pace.Counted(old(limiter.Lane(key)), at)) else old(limiter.Lane(key))
      ensures forall key :: coalescer.LaneOf(key) ==
                if old(Passes(lead, plugin, p, at)) && refusal == None && key == Pace.Key(lead.SpeaksFor(p.session).value, p.node)
                then Pace.Step(old(coalescer.LaneOf(key)), Pace.Submit(at)) else old(coalescer.LaneOf(key))
    {
      removed, refusal, outcome := [], None, Ignored;
      var passes := MayPublish(lead, plugin, p, at);
      StoreStands();
      SlotsAreSound();
      if passes {
        removed, refusal, outcome := Deliver(lead.SpeaksFor(p.session).value, plugin, p, at);
      }
    }

    /** The three doors before the store; only the second keeps a count. */
    method MayPublish(lead: Lead, plugin: string, p: Publication, at: int) returns (passes: bool)
      modifies limiter
      ensures passes == old(Passes(lead, plugin, p, at))
      ensures forall key :: limiter.Lane(key) ==
                if lead.SpeaksFor(p.session) == Some(key.connection) && key.item == plugin
                then Some(Pace.Counted(old(limiter.Lane(key)), at)) else old(limiter.Lane(key))
    {
      var addressed := lead.SpeaksFor(p.session);
      if addressed.None? {
        return false;
      }
      var admitted := limiter.Allow(Pace.Key(addressed.value, plugin), at);
      return admitted && addressed.value in observed && p.node in observed[addressed.value];
    }

    method Deliver(c: string, plugin: string, p: Publication, at: int)
      returns (removed: seq<string>, refusal: Option<Refusal>, ghost outcome: Outcome)
      requires store.Valid()
      modifies this, store, store.trees.Values, coalescer
      ensures store.Valid() && forall k :: Sound(old(store.At(k)))
      ensures forall k :: store.At(k) ==
                if k == Key(c, plugin) then PublishTo(old(store.At(k)), p.node, p.state, p.message, p.children) else old(store.At(k))
      ensures outcome == Outcomes(old(store.At(Key(c, plugin))), p.node, p.state, p.message, p.children)
      ensures Answers(outcome, removed, refusal)
      ensures forall x, id :: Watches(observed, x, id) <==> Watches(old(observed), x, id) && !(x == c && id in removed)
      ensures forall key :: coalescer.LaneOf(key) ==
                if refusal == None && key == Pace.Key(c, p.node)
                then Pace.Step(old(coalescer.LaneOf(key)), Pace.Submit(at)) else old(coalescer.LaneOf(key))
    {
      removed, refusal, outcome := Hand(c, plugin, p);
      if refusal.None? {
        label stored:
        Follow(c, removed, p.node, at);
        StoreStands@stored();
      }
    }

    /** After an accepted snapshot: what left is no longer watched, and the node is redrawn. */
    method Follow(c: string, removed: seq<string>, node: string, at: int)
      modifies this, coalescer
      ensures forall x, id :: Watches(observed, x, id) <==> Watches(old(observed), x, id) && !(x == c && id in removed)
      ensures forall key :: coalescer.LaneOf(key) ==
                if key == Pace.Key(c, node) then Pace.Step(old(coalescer.LaneOf(key)), Pace.Submit(at)) else old(coalescer.LaneOf(key))
    {
      if |removed| > 0 {
        var changed := Retain(c, removed);
      }
      coalescer.DoSubmit(Pace.Key(c, node), at);
    }

    /** Steps that touch neither the store nor a tree leave every slot as it is. */
    twostate lemma StoreStands()
      requires old(store.Valid()) && unchanged(store) && unchanged(store.trees.Values)
      ensures store.Valid() && forall k :: store.At(k) == old(store.At(k))
    {
    }

    lemma SlotsAreSound()
      requires store.Valid()
      ensures forall k :: Sound(store.At(k))
    {
    }

    method Hand(c: string, plugin: string, p: Publication)
      returns (removed: seq<string>, refusal: Option<Refusal>, ghost outcome: Outcome)
      requires store.Valid()
      modifies store, store.trees.Values
      ensures store.Valid() && forall k :: Sound(old(store.At(k)))
      ensures forall k :: store.At(k) ==
                if k == Key(c, plugin) then PublishTo(old(store.At(k)), p.node, p.state, p.message, p.children) else old(store.At(k))
      ensures outcome == Outcomes(old(store.At(Key(c, plugin))), p.node, p.state, p.message, p.children)
      ensures Answers(outcome, removed, refusal)
      ensures refusal.Some? ==> removed == []
    {
      SlotsAreSound();
      outcome := Outcomes(store.At(Key(c, plugin)), p.node, p.state, p.message, p.children);
      removed, refusal := store.ApplySnapshot(Key(c, plugin), p.node, p.state, p.message, p.children);
      store.SlotsElsewhere(Key(c, plugin));
    }
  }
}
