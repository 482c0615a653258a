/**
 Embed tunnels (internal/usecase/embed_tunnel_service.go): tokens that let a
 browser frame attach to a session's tunnels, and the classification of frames a
 plugin pushes. Sessions, tunnels and tokens are names; 0 is the empty name.
 A browser connection is known by the order in which it was made.
 */
module EmbedTunnel {
  import opened Basics

  const EMPTY: nat := 0
  /** The tunnel a registration gets when it names none. */
  const MAIN: nat := 1
  const MAX_TUNNELS_PER_SESSION: nat := 8
  const MAX_TUNNEL_FRAME_SIZE: nat := 65536

  datatype Entry = Entry(session: nat, expires: int, open: map<nat, bool>, conns: map<nat, nat>, active: bool)

  /**
   tokens maps a session to its token, done holds the connections whose done
   channel was closed, orphans those whose entry a later registration replaced.
   */
  datatype State = State(entries: map<nat, Entry>, tokens: map<nat, nat>, tab: map<nat, bool>,
                         made: nat, done: set<nat>, orphans: set<nat>)

  const START := State(map[], map[], map[], 0, {}, {})

  datatype Op =
    | Register(session: nat, plugin: nat, tunnels: seq<nat>, token: nat, expires: int)
    | Revoke(session: nat)
    | Open(session: nat, tunnel: nat)
    | Close(session: nat, tunnel: nat)
    | Subscribe(session: nat, tunnel: nat)
    | Attach(token: nat, tunnel: nat, now: int)
    | SetActive(session: nat, active: bool)

  function Ids(tunnels: seq<nat>): seq<nat> { if tunnels == [] then [MAIN] else tunnels }

  predicate Registers(op: Op)
    requires op.Register?
  {
    op.session != EMPTY && op.plugin != EMPTY && |Ids(op.tunnels)| <= MAX_TUNNELS_PER_SESSION
  }

  predicate HasEntry(s: State, session: nat) { session in s.tokens && s.tokens[session] in s.entries }

  function EntryOf(s: State, session: nat): Entry
    requires HasEntry(s, session)
  {
    s.entries[s.tokens[session]]
  }

  function AllOpen(ids: seq<nat>): map<nat, bool> { map u | u in ids :: true }

  function FreshEntry(s: State, op: Op): Entry
    requires op.Register?
  {
    Entry(op.session, op.expires, AllOpen(Ids(op.tunnels)), map[],
          if op.session in s.tab then s.tab[op.session] else true)
  }

  /** The state without the session's entry, its connections closed or merely forgotten. */
  function Dropped(s: State, session: nat, closing: bool): State {
    if !HasEntry(s, session) then s
    else
      var gone := EntryOf(s, session).conns.Values;
      State(s.entries - {s.tokens[session]}, s.tokens - {session}, s.tab, s.made,
            if closing then s.done + gone else s.done, if closing then s.orphans else s.orphans + gone)
  }

  function Added(s: State, token: nat, e: Entry): State {
    s.(entries := s.entries[token := e], tokens := s.tokens[e.session := token])
  }

  predicate Attaches(s: State, op: Op)
    requires op.Attach?
  {
    op.token in s.entries && op.now <= s.entries[op.token].expires && op.tunnel in s.entries[op.token].open
  }

  function Closing(s: State, e: Entry, tunnel: nat): set<nat> {
    if tunnel in e.conns then s.done + {e.conns[tunnel]} else s.done
  }

  function Attached(s: State, token: nat, tunnel: nat): State
    requires token in s.entries
  {
    var e := s.entries[token];
    var tab := e.session in s.tab && s.tab[e.session];
    s.(entries := s.entries[token := e.(open := e.open[tunnel := true], conns := e.conns[tunnel := s.made], active := tab)],
       made := s.made + 1, done := Closing(s, e, tunnel))
  }

  function Opened(s: State, token: nat, tunnel: nat): State
    requires token in s.entries
  {
    var e := s.entries[token];
    if tunnel in e.open then s.(entries := s.entries[token := e.(open := e.open[tunnel := true])]) else s
  }

  function Shut(s: State, token: nat, tunnel: nat): State
    requires token in s.entries
  {
    var e := s.entries[token];
    var open := if tunnel in e.open then e.open[tunnel := false] else e.open;
    s.(entries := s.entries[token := e.(open := open, conns := e.conns - {tunnel})], done := Closing(s, e, tunnel))
  }

  function Step(s: State, op: Op): State {
    match op
    case Register(session, _, _, token, _) =>
      if Registers(op) then Added(Dropped(s, session, false), token, FreshEntry(s, op)) else s
    case Revoke(session) =>
      if session in s.tokens then Dropped(s, session, true).(tokens := s.tokens - {session}, tab := s.tab - {session}) else s
    case Open(session, tunnel) =>
      if HasEntry(s, session) then Opened(s, s.tokens[session], tunnel) else s
    case Close(session, tunnel) =>
      if HasEntry(s, session) then Shut(s, s.tokens[session], tunnel) else s
    case Subscribe(session, tunnel) =>
      if session != EMPTY && tunnel != EMPTY && HasEntry(s, session) then Opened(s, s.tokens[session], tunnel) else s
    case Attach(token, tunnel, _) =>
      if Attaches(s, op) then Attached(s, token, tunnel) else s
    case SetActive(session, active) =>
      var s' := s.(tab := s.tab[session := active]);
      if HasEntry(s, session)
      then s'.(entries := s.entries[s.tokens[session] := EntryOf(s, session).(active := active)]) else s'
  }

  function Run(ops: seq<Op>): State {
    if ops == [] then START else Step(Run(ops[..|ops| - 1]), ops[|ops| - 1])
  }

  /** A minted token is not one that is in use. */
  predicate Fresh(s: State, op: Op) { op.Register? && Registers(op) ==> op.token !in s.entries }

  ghost predicate FreshRun(ops: seq<Op>) {
    forall i :: 0 <= i < |ops| ==> Fresh(Run(ops[..i]), ops[i])
  }

  // ----- what every run keeps ---------------------------------------------------------------

  /** Connection c is the one attached to the tunnel of the token's entry. */
  predicate Live(s: State, c: nat, token: nat, tunnel: nat) {
    token in s.entries && tunnel in s.entries[token].conns && s.entries[token].conns[tunnel] == c
  }

  /** Sessions and tokens name each other. */
  ghost predicate Inverse(s: State) {
    && (forall x :: x in s.tokens ==> s.tokens[x] in s.entries && s.entries[s.tokens[x]].session == x)
    && (forall t :: t in s.entries ==> s.entries[t].session in s.tokens && s.tokens[s.entries[t].session] == t)
  }

  /** A connection is attached in one place and only to an open tunnel. */
  ghost predicate OnePlace(s: State) {
    && (forall c, t, u, t', u' :: Live(s, c, t, u) && Live(s, c, t', u') ==> t == t' && u == u')
    && (forall c, t, u :: Live(s, c, t, u) ==> u in s.entries[t].open && s.entries[t].open[u])
  }

  /** Every connection ever made is attached, closed, or orphaned, and never two of these. */
  ghost predicate Conserved(s: State) {
    && (forall c: nat, t, u :: Live(s, c, t, u) ==> c < s.made && c !in s.done && c !in s.orphans)
    && s.done !! s.orphans
    && (forall c :: c in s.done || c in s.orphans ==> c < s.made)
    && (forall c: nat :: c < s.made ==> c in s.done || c in s.orphans || Somewhere(s, c))
  }

  ghost predicate Somewhere(s: State, c: nat) { exists t, u :: Live(s, c, t, u) }

  ghost predicate Inv(s: State) { Inverse(s) && OnePlace(s) && Conserved(s) }

  lemma DroppedIsLive(s: State, session: nat, c: nat)
    requires HasEntry(s, session)
    ensures c in EntryOf(s, session).conns.Values <==> exists u :: Live(s, c, s.tokens[session], u)
  {
    var conns := EntryOf(s, session).conns;
    if c in conns.Values {
      var u :| u in conns && conns[u] == c;
      assert Live(s, c, s.tokens[session], u);
    }
  }

  lemma DroppedKeepsPlaces(s: State, session: nat, closing: bool)
    requires Inv(s)
    ensures Inverse(Dropped(s, session, closing)) && OnePlace(Dropped(s, session, closing))
    ensures session !in Dropped(s, session, closing).tokens
  {
    var s' := Dropped(s, session, closing);
    assert forall c, t, u :: Live(s', c, t, u) ==> Live(s, c, t, u);
  }

  lemma DroppedConserves(s: State, session: nat, closing: bool)
    requires Inv(s)
    ensures Conserved(Dropped(s, session, closing))
  {
    if HasEntry(s, session) {
      var s' := Dropped(s, session, closing);
      var token, gone := s.tokens[session], EntryOf(s, session).conns.Values;
      forall c ensures c in gone <==> exists u :: Live(s, c, token, u) {
        if c in gone {
          DroppedIsLive(s, session, c);
        }
      }
      assert forall c, t, u :: Live(s', c, t, u) <==> Live(s, c, t, u) && t != token;
      forall c: nat | c < s.made ensures c in s'.done || c in s'.orphans || Somewhere(s', c) {
        if Somewhere(s, c) {
          var t, u :| Live(s, c, t, u);
          assert t != token ==> Live(s', c, t, u);
        }
      }
    }
  }

  lemma AddedKeepsInv(s: State, token: nat, e: Entry)
    requires Inv(s) && token !in s.entries && e.session !in s.tokens && e.conns == map[]
    ensures Inv(Added(s, token, e))
  {
    var s' := Added(s, token, e);
    assert forall c, t, u :: Live(s', c, t, u) <==> Live(s, c, t, u);
    SameConns(s, s');
  }

  /** Connections that stay where they are stay accounted for. */
  lemma SameConns(s: State, s': State)
    requires Conserved(s) && s'.made == s.made && s'.done == s.done && s'.orphans == s.orphans
    requires forall c, t, u :: Live(s', c, t, u) <==> Live(s, c, t, u)
    ensures Conserved(s')
  {
    forall c: nat | Somewhere(s, c) ensures Somewhere(s', c) {
      var t, u :| Live(s, c, t, u);
      assert Live(s', c, t, u);
    }
  }

  lemma AttachedKeepsPlaces(s: State, token: nat, tunnel: nat)
    requires Inv(s) && token in s.entries
    ensures Inverse(Attached(s, token, tunnel)) && OnePlace(Attached(s, token, tunnel))
  {
    var s' := Attached(s, token, tunnel);
    assert forall c, t, u :: Live(s', c, t, u) <==>
      if t == token && u == tunnel then c == s.made else Live(s, c, t, u);
  }

  lemma AttachedConserves(s: State, token: nat, tunnel: nat)
    requires Inv(s) && token in s.entries
    ensures Conserved(Attached(s, token, tunnel))
  {
    var s' := Attached(s, token, tunnel);
    var e := s.entries[token];
    assert forall c, t, u :: Live(s', c, t, u) <==>
      if t == token && u == tunnel then c == s.made else Live(s, c, t, u);
    if tunnel in e.conns {
      assert Live(s, e.conns[tunnel], token, tunnel);
    }
    assert Live(s', s.made, token, tunnel);
    forall c: nat | c < s.made ensures c in s'.done || c in s'.orphans || Somewhere(s', c) {
      if Somewhere(s, c) {
        var t, u :| Live(s, c, t, u);
        assert (t == token && u == tunnel) || Live(s', c, t, u);
      }
    }
  }

  lemma ShutKeepsPlaces(s: State, token: nat, tunnel: nat)
    requires Inv(s) && token in s.entries
    ensures Inverse(Shut(s, token, tunnel)) && OnePlace(Shut(s, token, tunnel))
  {
    var s' := Shut(s, token, tunnel);
    assert forall c, t, u :: Live(s', c, t, u) <==> Live(s, c, t, u) && !(t == token && u == tunnel);
  }

  lemma ShutConserves(s: State, token: nat, tunnel: nat)
    requires Inv(s) && token in s.entries
    ensures Conserved(Shut(s, token, tunnel))
  {
    var s' := Shut(s, token, tunnel);
    var e := s.entries[token];
    assert forall c, t, u :: Live(s', c, t, u) <==> Live(s, c, t, u) && !(t == token && u == tunnel);
    if tunnel in e.conns {
      assert Live(s, e.conns[tunnel], token, tunnel);
    }
    forall c: nat | c < s.made ensures c in s'.done || c in s'.orphans || Somewhere(s', c) {
      if Somewhere(s, c) {
        var t, u :| Live(s, c, t, u);
        assert (t == token && u == tunnel) || Live(s', c, t, u);
      }
    }
  }

  lemma OpenedKeepsInv(s: State, token: nat, tunnel: nat)
    requires Inv(s) && token in s.entries
    ensures Inv(Opened(s, token, tunnel))
  {
    var s' := Opened(s, token, tunnel);
    assert forall c, t, u :: Live(s', c, t, u) <==> Live(s, c, t, u);
    SameConns(s, s');
  }

  lemma SetActiveKeepsInv(s: State, session: nat, active: bool)
    requires Inv(s)
    ensures Inv(Step(s, SetActive(session, active)))
  {
    var s' := Step(s, SetActive(session, active));
    assert forall c, t, u :: Live(s', c, t, u) <==> Live(s, c, t, u);
    SameConns(s, s');
  }

  lemma StepKeepsInv(s: State, op: Op)
    requires Inv(s) && Fresh(s, op)
    ensures Inv(Step(s, op))
  {
    match op
    case Register(session, _, _, token, _) =>
      if Registers(op) {
        DroppedKeepsPlaces(s, session, false);
        DroppedConserves(s, session, false);
        AddedKeepsInv(Dropped(s, session, false), token, FreshEntry(s, op));
      }
    case Revoke(session) =>
      DroppedKeepsPlaces(s, session, true);
      DroppedConserves(s, session, true);
      if session in s.tokens {
        var s' := Dropped(s, session, true);
        assert s'.tokens == s.tokens - {session};
        assert forall c, t, u :: Live(s', c, t, u) <==> Live(Step(s, op), c, t, u);
        SameConns(s', Step(s, op));
      }
    case Open(session, tunnel) => if HasEntry(s, session) { OpenedKeepsInv(s, s.tokens[session], tunnel); }
    case Close(session, tunnel) =>
      if HasEntry(s, session) {
        ShutKeepsPlaces(s, s.tokens[session], tunnel);
        ShutConserves(s, s.tokens[session], tunnel);
      }
    case Subscribe(session, tunnel) => if HasEntry(s, session) { OpenedKeepsInv(s, s.tokens[session], tunnel); }
    case Attach(token, tunnel, _) =>
      if Attaches(s, op) {
        AttachedKeepsPlaces(s, token, tunnel);
        AttachedConserves(s, token, tunnel);
      }
    case SetActive(session, active) => SetActiveKeepsInv(s, session, active);
  }

  lemma FreshPrefix(ops: seq<Op>, n: nat)
    requires FreshRun(ops) && n <= |ops|
    ensures FreshRun(ops[..n])
  {
    forall i | 0 <= i < n ensures Fresh(Run(ops[..n][..i]), ops[..n][i]) {
      assert ops[..n][..i] == ops[..i];
      assert Fresh(Run(ops[..i]), ops[i]);
    }
  }

  /**
   Over every run with fresh tokens sessions and tokens stay inverse to each
   other, and every connection ever made is attached in one place, closed, or
   orphaned by a later registration of its session.
   */
  lemma {:induction false} EveryRunKeepsInv(ops: seq<Op>)
    requires FreshRun(ops)
    ensures Inv(Run(ops))
    decreases |ops|
  {
    if ops != [] {
      var n := |ops| - 1;
      FreshPrefix(ops, n);
      EveryRunKeepsInv(ops[..n]);
      StepKeepsInv(Run(ops[..n]), ops[n]);
    }
  }

  /** Step i registers a session anew while connection c is attached to it. */
  predicate ReplacesAt(ops: seq<Op>, i: nat, c: nat)
    requires i < |ops|
  {
    && ops[i].Register? && Registers(ops[i])
    && HasEntry(Run(ops[..i]), ops[i].session)
    && c in EntryOf(Run(ops[..i]), ops[i].session).conns.Values
  }

  lemma OrphansStep(s: State, op: Op, c: nat)
    ensures c in Step(s, op).orphans <==>
              c in s.orphans
              || (op.Register? && Registers(op) && HasEntry(s, op.session) && c in EntryOf(s, op.session).conns.Values)
  {
  }

  /** A connection is orphaned exactly when its session was registered anew while it was attached. */
  lemma {:induction false} OrphanedMeansReplaced(ops: seq<Op>, c: nat)
    ensures c in Run(ops).orphans <==> exists i :: 0 <= i < |ops| && ReplacesAt(ops, i, c)
    decreases |ops|
  {
    if ops != [] {
      var n := |ops| - 1;
      OrphanedMeansReplaced(ops[..n], c);
      OrphansStep(Run(ops[..n]), ops[n], c);
      forall i | 0 <= i < n ensures ReplacesAt(ops[..n], i, c) == ReplacesAt(ops, i, c) {
        assert ops[..n][..i] == ops[..i];
      }
      if c in Run(ops).orphans && c !in Run(ops[..n]).orphans {
        assert ReplacesAt(ops, n, c);
      }
    }
  }

  /**
   A connection that is attached when its session is registered anew is never
   closed: whoever waits on its done channel waits for ever. Any other that is no
   longer attached was closed.
   */
  lemma OrphansAreNeverClosed(ops: seq<Op>, c: nat)
    requires FreshRun(ops) && c < Run(ops).made && !Somewhere(Run(ops), c)
    ensures c !in Run(ops).done <==> exists i :: 0 <= i < |ops| && ReplacesAt(ops, i, c)
  {
    EveryRunKeepsInv(ops);
    OrphanedMeansReplaced(ops, c);
  }

  /** And it stays so, however the run goes on. */
  lemma ReplacedStaysOpen(ops: seq<Op>, i: nat, c: nat)
    requires FreshRun(ops) && i < |ops| && ReplacesAt(ops, i, c)
    ensures c !in Run(ops).done && !Somewhere(Run(ops), c)
  {
    EveryRunKeepsInv(ops);
    OrphanedMeansReplaced(ops, c);
  }

  // ----- what a frame is told -----------------------------------------------------------------

  datatype Outcome =
    | Queued | FrameTooLarge | SessionGone | TabInactive | RateLimited
    | TunnelUnknown | TunnelNotAttached | TunnelClosed | BufferFull

  /** allowed is the limiter's word, room whether the connection's queue has space. */
  function Route(s: State, session: nat, tunnel: nat, size: nat, allowed: bool, room: bool): Outcome {
    if size > MAX_TUNNEL_FRAME_SIZE then FrameTooLarge
    else if !HasEntry(s, session) then SessionGone
    else
      var e := EntryOf(s, session);
      if !e.active then TabInactive
      else if !allowed then RateLimited
      else if tunnel in e.conns then (if room then Queued else BufferFull)
      else if tunnel !in e.open then TunnelUnknown
      else if e.open[tunnel] then TunnelNotAttached
      else TunnelClosed
  }

  /** Whether the session's tunnel is registered, and if so open. */
  function Gate(s: State, session: nat, tunnel: nat): Option<bool> {
    if HasEntry(s, session) && tunnel in EntryOf(s, session).open then Some(EntryOf(s, session).open[tunnel]) else None
  }

  predicate Shuts(s: State, op: Op, session: nat, tunnel: nat) {
    op == Close(session, tunnel) && Gate(s, session, tunnel).Some?
  }

  /** The operation registers, revokes, opens, subscribes to or attaches to this very tunnel. */
  predicate Reopens(s: State, op: Op, session: nat, tunnel: nat) {
    match op
    case Register(x, _, _, _, _) => Registers(op) && x == session
    case Revoke(x) => x == session
    case Open(x, u) => x == session && u == tunnel
    case Subscribe(x, u) => x == session && u == tunnel && x != EMPTY && u != EMPTY
    case Attach(t, u, _) => Attaches(s, op) && s.entries[t].session == session && u == tunnel
    case _ => false
  }

  lemma GateAfterRegister(s: State, op: Op, session: nat, tunnel: nat)
    requires Inv(s) && Fresh(s, op) && op.Register?
    ensures Gate(Step(s, op), session, tunnel) ==
              if !Registers(op) || op.session != session then Gate(s, session, tunnel)
              else if tunnel in Ids(op.tunnels) then Some(true) else None
  {
  }

  lemma GateAfterTunnelOp(s: State, op: Op, session: nat, tunnel: nat)
    requires Inv(s) && !op.Register? && !op.Revoke?
    ensures Gate(Step(s, op), session, tunnel) ==
              if Gate(s, session, tunnel).None? then None
              else if Shuts(s, op, session, tunnel) then Some(false)
              else if Reopens(s, op, session, tunnel) then Some(true)
              else Gate(s, session, tunnel)
  {
  }

  lemma GateShuts(s: State, op: Op, session: nat, tunnel: nat)
    requires Inv(s) && Fresh(s, op)
    ensures Gate(Step(s, op), session, tunnel) == Some(false) <==>
              Shuts(s, op, session, tunnel)
              || (Gate(s, session, tunnel) == Some(false) && !Reopens(s, op, session, tunnel))
  {
    if op.Register? {
      GateAfterRegister(s, op, session, tunnel);
    } else if !op.Revoke? {
      GateAfterTunnelOp(s, op, session, tunnel);
    }
  }

  ghost predicate ShutAt(ops: seq<Op>, i: nat, session: nat, tunnel: nat) {
    && i < |ops| && Shuts(Run(ops[..i]), ops[i], session, tunnel)
    && forall j :: i < j < |ops| ==> !Reopens(Run(ops[..j]), ops[j], session, tunnel)
  }

  ghost predicate ShutLast(ops: seq<Op>, session: nat, tunnel: nat) {
    exists i: nat :: ShutAt(ops, i, session, tunnel)
  }

  lemma ShutExtends(ops: seq<Op>, i: nat, session: nat, tunnel: nat)
    requires ops != [] && i < |ops| - 1
    ensures ShutAt(ops, i, session, tunnel) <==>
              ShutAt(ops[..|ops| - 1], i, session, tunnel)
              && !Reopens(Run(ops[..|ops| - 1]), ops[|ops| - 1], session, tunnel)
  {
    var n := |ops| - 1;
    assert forall j :: 0 <= j < n ==> ops[..n][..j] == ops[..j];
    assert forall j :: 0 <= j < n ==> ops[..n][j] == ops[j];
  }

  lemma ShutLastStep(ops: seq<Op>, session: nat, tunnel: nat)
    requires ops != []
    ensures var n := |ops| - 1;
            ShutLast(ops, session, tunnel) <==>
              Shuts(Run(ops[..n]), ops[n], session, tunnel)
              || (ShutLast(ops[..n], session, tunnel) && !Reopens(Run(ops[..n]), ops[n], session, tunnel))
  {
    var n := |ops| - 1;
    if Shuts(Run(ops[..n]), ops[n], session, tunnel) {
      assert ShutAt(ops, n, session, tunnel);
    } else if ShutLast(ops, session, tunnel) {
      var i: nat :| ShutAt(ops, i, session, tunnel);
      ShutExtends(ops, i, session, tunnel);
    } else if ShutLast(ops[..n], session, tunnel) {
      var i: nat :| ShutAt(ops[..n], i, session, tunnel);
      ShutExtends(ops, i, session, tunnel);
    }
  }

  lemma {:induction false} GateIsHistory(ops: seq<Op>, session: nat, tunnel: nat)
    requires FreshRun(ops)
    ensures Gate(Run(ops), session, tunnel) == Some(false) <==> ShutLast(ops, session, tunnel)
    decreases |ops|
  {
    if ops != [] {
      var n := |ops| - 1;
      FreshPrefix(ops, n);
      GateIsHistory(ops[..n], session, tunnel);
      EveryRunKeepsInv(ops[..n]);
      GateShuts(Run(ops[..n]), ops[n], session, tunnel);
      ShutLastStep(ops, session, tunnel);
    }
  }

  /**
   The terminal refusal is honest: a frame that passes the size, tab and rate
   checks of a live session is told its tunnel is closed exactly when CloseTunnel
   hit that tunnel and nothing registered, revoked, opened, subscribed to or
   attached to it since.
   */
  lemma ClosedMeansClosedLast(ops: seq<Op>, session: nat, tunnel: nat, size: nat, allowed: bool, room: bool)
    requires FreshRun(ops)
    ensures Route(Run(ops), session, tunnel, size, allowed, room) == TunnelClosed <==>
              && size <= MAX_TUNNEL_FRAME_SIZE && allowed
              && HasEntry(Run(ops), session) && EntryOf(Run(ops), session).active
              && ShutLast(ops, session, tunnel)
  {
    EveryRunKeepsInv(ops);
    GateIsHistory(ops, session, tunnel);
    var s := Run(ops);
    if HasEntry(s, session) && tunnel in EntryOf(s, session).conns {
      assert Live(s, EntryOf(s, session).conns[tunnel], s.tokens[session], tunnel);
    }
  }

  // ----- a tunnel as a four-state machine of its own ---------------------------------------------

  /** Unknown to the session, open and waiting for a browser, attached to one, or closed off. */
  datatype Stage = Unregistered | Waiting | Connected | ClosedOff

  function StageIn(s: State, session: nat, tunnel: nat): Stage {
    match Gate(s, session, tunnel)
    case None => Unregistered
    case Some(open) =>
      if tunnel in EntryOf(s, session).conns then Connected else if open then Waiting else ClosedOff
  }

  /** What each operation does to the stage of one tunnel of one session. */
  function StageAfter(s: State, op: Op, session: nat, tunnel: nat, was: Stage): Stage {
    match op
    case Register(x, _, tunnels, _, _) =>
      if !Registers(op) || x != session then was else if tunnel in Ids(tunnels) then Waiting else Unregistered
    case Revoke(x) => if x == session then Unregistered else was
    case Close(x, u) => if x == session && u == tunnel && !was.Unregistered? then ClosedOff else was
    case Attach(_, _, _) => if Reopens(s, op, session, tunnel) then Connected else was
    case _ => if Reopens(s, op, session, tunnel) && was.ClosedOff? then Waiting else was
  }

  function StageOf(ops: seq<Op>, session: nat, tunnel: nat): Stage {
    if ops == [] then Unregistered
    else
      var n := |ops| - 1;
      StageAfter(Run(ops[..n]), ops[n], session, tunnel, StageOf(ops[..n], session, tunnel))
  }

  lemma StageAfterRegister(s: State, op: Op, session: nat, tunnel: nat)
    requires Inv(s) && Fresh(s, op) && op.Register?
    ensures StageIn(Step(s, op), session, tunnel) == StageAfter(s, op, session, tunnel, StageIn(s, session, tunnel))
  {
    GateAfterRegister(s, op, session, tunnel);
  }

  lemma StageAfterRevoke(s: State, op: Op, session: nat, tunnel: nat)
    requires Inv(s) && op.Revoke?
    ensures StageIn(Step(s, op), session, tunnel) == StageAfter(s, op, session, tunnel, StageIn(s, session, tunnel))
  {
  }

  lemma StageAfterTunnelOp(s: State, op: Op, session: nat, tunnel: nat)
    requires Inv(s) && !op.Register? && !op.Revoke?
    ensures StageIn(Step(s, op), session, tunnel) == StageAfter(s, op, session, tunnel, StageIn(s, session, tunnel))
  {
    GateAfterTunnelOp(s, op, session, tunnel);
    if HasEntry(s, session) && tunnel in EntryOf(s, session).conns {
      assert Live(s, EntryOf(s, session).conns[tunnel], s.tokens[session], tunnel);
    }
  }

  lemma {:induction false} StageIsHistory(ops: seq<Op>, session: nat, tunnel: nat)
    requires FreshRun(ops)
    ensures StageIn(Run(ops), session, tunnel) == StageOf(ops, session, tunnel)
    decreases |ops|
  {
    if ops != [] {
      var n := |ops| - 1;
      var s, op := Run(ops[..n]), ops[n];
      FreshPrefix(ops, n);
      StageIsHistory(ops[..n], session, tunnel);
      EveryRunKeepsInv(ops[..n]);
      if op.Register? {
        StageAfterRegister(s, op, session, tunnel);
      } else if op.Revoke? {
        StageAfterRevoke(s, op, session, tunnel);
      } else {
        StageAfterTunnelOp(s, op, session, tunnel);
      }
    }
  }

  /**
   Every classification is honest: over every run, a frame that passes the size,
   tab and rate checks is told exactly the stage that the operations on its
   tunnel have brought it to.
   */
  lemma RouteFollowsStage(ops: seq<Op>, session: nat, tunnel: nat, size: nat, room: bool)
    requires FreshRun(ops) && size <= MAX_TUNNEL_FRAME_SIZE
    requires HasEntry(Run(ops), session) && EntryOf(Run(ops), session).active
    ensures Route(Run(ops), session, tunnel, size, true, room)
         == match StageOf(ops, session, tunnel)
            case Unregistered => TunnelUnknown
            case Waiting => TunnelNotAttached
            case Connected => if room then Queued else BufferFull
            case ClosedOff => TunnelClosed
  {
    EveryRunKeepsInv(ops);
    StageIsHistory(ops, session, tunnel);
    var s := Run(ops);
    if tunnel in EntryOf(s, session).conns {
      assert Live(s, EntryOf(s, session).conns[tunnel], s.tokens[session], tunnel);
    }
  }

  /** The last word on the session's tab since it was last revoked, if any. */
  function TabWord(ops: seq<Op>, session: nat): Option<bool> {
    if ops == [] then None
    else
      var n := |ops| - 1;
      if ops[n].SetActive? && ops[n].session == session then Some(ops[n].active)
      else if ops[n].Revoke? && ops[n].session == session && session in Run(ops[..n]).tokens then None
      else TabWord(ops[..n], session)
  }

  lemma {:induction false} TabIsHistory(ops: seq<Op>, session: nat)
    ensures TabWord(ops, session) == if session in Run(ops).tab then Some(Run(ops).tab[session]) else None
    decreases |ops|
  {
    if ops != [] {
      TabIsHistory(ops[..|ops| - 1], session);
      TabStep(Run(ops[..|ops| - 1]), ops[|ops| - 1]);
    }
  }

  lemma TabStep(s: State, op: Op)
    ensures Step(s, op).tab ==
              if op.SetActive? then s.tab[op.session := op.active]
              else if op.Revoke? && op.session in s.tokens then s.tab - {op.session}
              else s.tab
  {
  }

  /**
   Attaching follows the tab, not the registration: right after a browser
   attaches, frames pass the tab check exactly when the tab was reported active.
   An entry starts active, so a session whose tab was never reported goes silent
   the moment its browser attaches.
   */
  lemma AttachFollowsTheTab(ops: seq<Op>, op: Op, size: nat, allowed: bool, room: bool)
    requires FreshRun(ops) && op.Attach? && Attaches(Run(ops), op) && size <= MAX_TUNNEL_FRAME_SIZE
    ensures var session := Run(ops).entries[op.token].session;
            Route(Step(Run(ops), op), session, op.tunnel, size, allowed, room) == TabInactive
            <==> TabWord(ops, session) != Some(true)
  {
    EveryRunKeepsInv(ops);
    RouteAfterAttach(Run(ops), op, size, allowed, room);
    TabIsHistory(ops, Run(ops).entries[op.token].session);
  }

  lemma RouteAfterAttach(s: State, op: Op, size: nat, allowed: bool, room: bool)
    requires Inverse(s) && op.Attach? && Attaches(s, op) && size <= MAX_TUNNEL_FRAME_SIZE
    ensures var session := s.entries[op.token].session;
            Route(Step(s, op), session, op.tunnel, size, allowed, room) == TabInactive
            <==> !(session in s.tab && s.tab[session])
  {
    var session := s.entries[op.token].session;
    assert s.tokens[session] == op.token;
    assert Step(s, op).entries[op.token].active == (session in s.tab && s.tab[session]);
  }

  // ----- runs in which it happens ------------------------------------------------------------------

  lemma RunGrows(ops: seq<Op>, op: Op)
    ensures Run(ops + [op]) == Step(Run(ops), op)
    ensures FreshRun(ops) && Fresh(Run(ops), op) ==> FreshRun(ops + [op])
  {
    var longer := ops + [op];
    assert longer[..|ops|] == ops;
    forall i | 0 <= i < |ops| && FreshRun(ops) ensures Fresh(Run(longer[..i]), longer[i]) {
      assert longer[..i] == ops[..i];
    }
  }

  /** Session 1 registers its main tunnel under token 5, and a browser attaches. */
  const REGISTERED: seq<Op> := [Register(1, 1, [], 5, 100)]
  const ATTACHED: seq<Op> := [Register(1, 1, [], 5, 100), Attach(5, MAIN, 0)]

  lemma AttachedRun()
    ensures FreshRun(REGISTERED) && FreshRun(ATTACHED) && Run(ATTACHED) == Step(Run(REGISTERED), Attach(5, MAIN, 0))
    ensures Run(REGISTERED) == State(map[5 := Entry(1, 100, map[MAIN := true], map[], true)], map[1 := 5], map[], 0, {}, {})
    ensures Run(ATTACHED) == State(map[5 := Entry(1, 100, map[MAIN := true], map[MAIN := 0], false)], map[1 := 5], map[], 1, {}, {})
  {
    RunGrows([], REGISTERED[0]);
    assert [] + [REGISTERED[0]] == REGISTERED;
    RunGrows(REGISTERED, ATTACHED[1]);
    assert REGISTERED + [ATTACHED[1]] == ATTACHED;
    assert AllOpen(Ids([])) == map[MAIN := true];
    assert map[MAIN := true][MAIN := true] == map[MAIN := true];
    var none: map<nat, nat> := map[];
    assert none[MAIN := 0] == map[MAIN := 0];
  }

  /** Such a run: registering again orphans the attached connection. */
  lemma RegisteringAgainOrphans()
    ensures var ops := ATTACHED + [Register(1, 1, [], 6, 100)];
            FreshRun(ops) && Live(Run(ATTACHED), 0, 5, MAIN) && ReplacesAt(ops, 2, 0) && 0 !in Run(ops).done
  {
    AttachedRun();
    var ops := ATTACHED + [Register(1, 1, [], 6, 100)];
    RunGrows(ATTACHED, Register(1, 1, [], 6, 100));
    assert ops[..2] == ATTACHED;
    assert 0 in map[MAIN := 0].Values;
    ReplacedStaysOpen(ops, 2, 0);
  }

  /** Such a run: a frame waits for the browser, and once it attaches is refused because the tab was never reported. */
  lemma FirstAttachSilences(size: nat, room: bool)
    requires size <= MAX_TUNNEL_FRAME_SIZE
    ensures FreshRun(ATTACHED) && TabWord(REGISTERED, 1) == None
    ensures Route(Run(REGISTERED), 1, MAIN, size, true, room) == TunnelNotAttached
    ensures Route(Run(ATTACHED), 1, MAIN, size, true, room) == TabInactive
  {
    AttachedRun();
    TabIsHistory(REGISTERED, 1);
  }

  // ----- the service as the program keeps it -----------------------------------------------------

  datatype Pair = Pair(session: nat, tunnel: nat)

  ghost predicate Receivers(outbound: map<Pair, nat>, made: nat, stopped: set<nat>) {
    && (forall a, b :: a in outbound && b in outbound && outbound[a] == outbound[b] ==> a == b)
    && (forall a :: a in outbound ==> outbound[a] < made && outbound[a] !in stopped)
    && (forall id :: id in stopped ==> id < made)
    && (forall id: nat :: id < made ==> id in stopped || Receives(outbound, id))
  }

  ghost predicate Receives(outbound: map<Pair, nat>, id: nat) { exists a :: a in outbound && outbound[a] == id }

  lemma OneMoreReceiver(outbound: map<Pair, nat>, made: nat, stopped: set<nat>, pair: Pair)
    requires Receivers(outbound, made, stopped)
    ensures Receivers(outbound[pair := made], made + 1, stopped + if pair in outbound then {outbound[pair]} else {})
  {
    var after := outbound[pair := made];
    assert after[pair] == made;
    forall id: nat | id < made && Receives(outbound, id) && !(pair in outbound && outbound[pair] == id) ensures Receives(after, id) {
      var a :| a in outbound && outbound[a] == id;
      assert after[a] == id;
    }
  }

  lemma OneReceiverLess(outbound: map<Pair, nat>, made: nat, stopped: set<nat>, pair: Pair)
    requires Receivers(outbound, made, stopped) && pair in outbound
    ensures Receivers(outbound - {pair}, made, stopped + {outbound[pair]})
  {
    var after := outbound - {pair};
    forall id: nat | Receives(outbound, id) && outbound[pair] != id ensures Receives(after, id) {
      var a :| a in outbound && outbound[a] == id;
      assert after[a] == id;
    }
  }

  class TunnelService {
    var entries: map<nat, Entry>
    var sessionToken: map<nat, nat>
    var sessionActive: map<nat, bool>
    var made: nat
    /** The plugin's end of each tunnel: the one subscription that receives its input, by order of making. */
    var outbound: map<Pair, nat>
    var subscriptions: nat
    /** The subscriptions told to stop. */
    ghost var stopped: set<nat>
    /** The done channels closed so far, and the connections nobody can close any more. */
    ghost var done: set<nat>
    ghost var orphans: set<nat>

    ghost function View(): State
      reads this
    {
      State(entries, sessionToken, sessionActive, made, done, orphans)
    }

    constructor ()
      ensures View() == START && Inv(View()) && OneReceiver()
    {
      outbound, subscriptions, stopped := map[], 0, {};
      entries, sessionToken, sessionActive, made, done, orphans := map[], map[], map[], 0, {}, {};
    }

    /** Closing a channel; a second close of the same one would panic. */
    method CloseDone(c: nat)
      requires c !in done
      modifies this`done
      ensures done == old(done) + {c}
    {
      done := done + {c};
    }

    method DoRegister(session: nat, plugin: nat, tunnels: seq<nat>, token: nat, expires: int) returns (ok: bool)
      requires Inv(View()) && Fresh(View(), Register(session, plugin, tunnels, token, expires))
      modifies this`entries, this`sessionToken, this`sessionActive, this`made, this`done, this`orphans
      ensures Inv(View()) && View() == Step(old(View()), Register(session, plugin, tunnels, token, expires))
      ensures ok == Registers(Register(session, plugin, tunnels, token, expires))
      ensures ok <==> session != EMPTY && plugin != EMPTY && |tunnels| <= 8
    {
      if session == EMPTY || plugin == EMPTY {
        return false;
      }
      var ids := if |tunnels| == 0 then [MAIN] else tunnels;
      if |ids| > MAX_TUNNELS_PER_SESSION {
        return false;
      }
      StepKeepsInv(View(), Register(session, plugin, tunnels, token, expires));
      Install(session, ids, token, expires);
      return true;
    }

    method Install(session: nat, ids: seq<nat>, token: nat, expires: int)
      requires Inverse(View())
      modifies this`entries, this`sessionToken, this`sessionActive, this`made, this`done, this`orphans
      ensures View() == Added(Dropped(old(View()), session, false), token,
                              Entry(session, expires, AllOpen(ids), map[],
                                    if session in old(sessionActive) then old(sessionActive)[session] else true))
    {
      ghost var without := Dropped(View(), session, false);
      ForgetToken(session);
      var open := OpenAll(ids);
      var active := if session in sessionActive then sessionActive[session] else true;
      entries := entries[token := Entry(session, expires, open, map[], active)];
      sessionToken := sessionToken[session := token];
      assert sessionToken == without.tokens[session := token];
    }

    /** The entry of the session's token goes, and nobody closes its connections. */
    method ForgetToken(session: nat)
      requires Inverse(View())
      modifies this`entries, this`orphans
      ensures entries == Dropped(old(View()), session, false).entries
      ensures orphans == Dropped(old(View()), session, false).orphans
    {
      if session in sessionToken {
        orphans := orphans + entries[sessionToken[session]].conns.Values;
        entries := entries - {sessionToken[session]};
      }
    }

    method OpenAll(ids: seq<nat>) returns (open: map<nat, bool>)
      ensures open == AllOpen(ids)
    {
      open := map[];
      for i := 0 to |ids|
        invariant open == AllOpen(ids[..i])
      {
        assert ids[..i + 1] == ids[..i] + [ids[i]];
        open := open[ids[i] := true];
      }
      assert ids[..|ids|] == ids;
    }

    method RevokeBySession(session: nat)
      requires Inv(View())
      modifies this`entries, this`sessionToken, this`sessionActive, this`made, this`done, this`orphans
      ensures Inv(View()) && View() == Step(old(View()), Revoke(session))
    {
      ghost var s := View();
      StepKeepsInv(s, Revoke(session));
      if session !in sessionToken {
        return;
      }
      var token := sessionToken[session];
      CloseAll(token);
      sessionToken := sessionToken - {session};
      entries := entries - {token};
      sessionActive := sessionActive - {session};
    }

    method CloseAll(token: nat)
      requires Inv(View()) && token in entries
      modifies this`done
      ensures done == old(done) + entries[token].conns.Values
    {
      ghost var s := View();
      var conns := entries[token].conns;
      var rest := conns.Keys;
      while rest != {}
        invariant rest <= conns.Keys
        invariant done == s.done + (set u | u in conns.Keys - rest :: conns[u])
        decreases |rest|
      {
        var u :| u in rest;
        assert Live(s, conns[u], token, u);
        assert forall v | v in conns.Keys - rest :: Live(s, conns[v], token, v);
        CloseDone(conns[u]);
        rest := rest - {u};
      }
    }

    method OpenTunnel(session: nat, tunnel: nat) returns (ok: bool)
      requires Inv(View())
      modifies this`entries, this`sessionToken, this`sessionActive, this`made, this`done, this`orphans
      ensures Inv(View()) && View() == Step(old(View()), Open(session, tunnel))
      ensures ok <==> old(Gate(View(), session, tunnel)).Some?
    {
      StepKeepsInv(View(), Open(session, tunnel));
      if session !in sessionToken || sessionToken[session] !in entries {
        return false;
      }
      var token := sessionToken[session];
      var e := entries[token];
      if tunnel !in e.open {
        return false;
      }
      entries := entries[token := e.(open := e.open[tunnel := true])];
      return true;
    }

    /** A subscription receives the input of one tunnel or was told to stop, never both, and never none of these. */
    ghost predicate OneReceiver()
      reads this
    {
      Receivers(outbound, subscriptions, stopped)
    }

    /**
     The last subscriber of a tunnel receives its input; the one before is told
     to stop. Wiring the plugin's end also declares the tunnel ready.
     */
    method SubscribeOutbound(session: nat, tunnel: nat) returns (id: Option<nat>)
      requires Inv(View()) && OneReceiver()
      modifies this`entries, this`outbound, this`subscriptions, this`stopped
      ensures Inv(View()) && View() == Step(old(View()), Subscribe(session, tunnel)) && OneReceiver()
      ensures id == if session == EMPTY || tunnel == EMPTY then None else Some(old(subscriptions))
      ensures id.None? ==> outbound == old(outbound) && stopped == old(stopped)
      ensures id.Some? ==> var pair := Pair(session, tunnel);
                && outbound == old(outbound)[pair := id.value]
                && stopped == old(stopped) + if pair in old(outbound) then {old(outbound)[pair]} else {}
    {
      if session == EMPTY || tunnel == EMPTY {
        return None;
      }
      id := Some(subscriptions);
      Receive(Pair(session, tunnel));
      MarkReady(session, tunnel);
    }

    method Receive(pair: Pair)
      requires OneReceiver()
      modifies this`outbound, this`subscriptions, this`stopped
      ensures OneReceiver() && outbound == old(outbound)[pair := old(subscriptions)] && subscriptions == old(subscriptions) + 1
      ensures stopped == old(stopped) + if pair in old(outbound) then {old(outbound)[pair]} else {}
    {
      OneMoreReceiver(outbound, subscriptions, stopped, pair);
      if pair in outbound {
        stopped := stopped + {outbound[pair]};
      }
      outbound := outbound[pair := subscriptions];
      subscriptions := subscriptions + 1;
    }

    /** A subscription that a later one replaced takes nothing away. */
    method Unsubscribe(session: nat, tunnel: nat, id: nat)
      requires OneReceiver() && id < subscriptions && ((Pair(session, tunnel) in outbound && outbound[Pair(session, tunnel)] == id) || id in stopped)
      modifies this`outbound, this`stopped
      ensures OneReceiver() && stopped == old(stopped) + {id}
      ensures outbound == if id in old(stopped) then old(outbound) else old(outbound) - {Pair(session, tunnel)}
    {
      var pair := Pair(session, tunnel);
      if pair in outbound && outbound[pair] == id {
        OneReceiverLess(outbound, subscriptions, stopped, pair);
        outbound := outbound - {pair};
      }
      stopped := stopped + {id};
      assert id in old(stopped) ==> stopped == old(stopped);
    }

    method MarkReady(session: nat, tunnel: nat)
      requires Inv(View()) && session != EMPTY && tunnel != EMPTY
      modifies this`entries
      ensures Inv(View()) && View() == Step(old(View()), Subscribe(session, tunnel))
    {
      StepKeepsInv(View(), Subscribe(session, tunnel));
      if session !in sessionToken || sessionToken[session] !in entries {
        return;
      }
      var token := sessionToken[session];
      var e := entries[token];
      if tunnel in e.open {
        entries := entries[token := e.(open := e.open[tunnel := true])];
      }
    }

    method CloseTunnel(session: nat, tunnel: nat) returns (ok: bool)
      requires Inv(View())
      modifies this`entries, this`sessionToken, this`sessionActive, this`made, this`done, this`orphans
      ensures Inv(View()) && View() == Step(old(View()), Close(session, tunnel))
      ensures ok == HasEntry(old(View()), session)
    {
      ghost var s := View();
      StepKeepsInv(s, Close(session, tunnel));
      if session !in sessionToken || sessionToken[session] !in entries {
        return false;
      }
      var token := sessionToken[session];
      var e := entries[token];
      if tunnel in e.open {
        e := e.(open := e.open[tunnel := false]);
      }
      if tunnel in e.conns {
        assert Live(s, e.conns[tunnel], token, tunnel);
        CloseDone(e.conns[tunnel]);
      }
      e := e.(conns := e.conns - {tunnel});
      entries := entries[token := e];
      return true;
    }

    method SetSessionActive(session: nat, active: bool)
      requires Inv(View())
      modifies this`entries, this`sessionToken, this`sessionActive, this`made, this`done, this`orphans
      ensures Inv(View()) && View() == Step(old(View()), SetActive(session, active))
    {
      StepKeepsInv(View(), SetActive(session, active));
      sessionActive := sessionActive[session := active];
      if session in sessionToken && sessionToken[session] in entries {
        var token := sessionToken[session];
        entries := entries[token := entries[token].(active := active)];
      }
    }

    method AttachWebSocket(token: nat, tunnel: nat, now: int) returns (conn: Option<nat>)
      requires Inv(View())
      modifies this`entries, this`sessionToken, this`sessionActive, this`made, this`done, this`orphans
      ensures Inv(View()) && View() == Step(old(View()), Attach(token, tunnel, now))
      ensures conn == if Attaches(old(View()), Attach(token, tunnel, now)) then Some(old(made)) else None
    {
      ghost var s := View();
      StepKeepsInv(s, Attach(token, tunnel, now));
      if token !in entries || now > entries[token].expires {
        return None;
      }
      var e := entries[token];
      if tunnel !in e.open {
        return None;
      }
      if tunnel in e.conns {
        assert Live(s, e.conns[tunnel], token, tunnel);
        CloseDone(e.conns[tunnel]);
      }
      conn := Some(made);
      var tab := e.session in sessionActive && sessionActive[e.session];
      entries := entries[token := e.(open := e.open[tunnel := true], conns := e.conns[tunnel := made], active := tab)];
      made := made + 1;
    }

    method RouteTunnelFrameFromPlugin(session: nat, tunnel: nat, size: nat, allowed: bool, room: bool) returns (r: Outcome)
      ensures r == Route(View(), session, tunnel, size, allowed, room)
    {
      if size > MAX_TUNNEL_FRAME_SIZE {
        return FrameTooLarge;
      }
      if session !in sessionToken || sessionToken[session] !in entries {
        return SessionGone;
      }
      var e := entries[sessionToken[session]];
      if !e.active {
        return TabInactive;
      }
      if !allowed {
        return RateLimited;
      }
      if tunnel !in e.conns {
        if tunnel !in e.open {
          return TunnelUnknown;
        } else if e.open[tunnel] {
          return TunnelNotAttached;
        }
        return TunnelClosed;
      }
      return if room then Queued else BufferFull;
    }
  }
}
