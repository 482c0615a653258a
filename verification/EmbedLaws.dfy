/**
 Tokens and frames told by the calls alone: which registration a token comes
 from, when it lets a browser attach, and each answer a frame can get.
 */
module EmbedLaws {
  import opened Basics
  import opened EmbedTunnel

  /** A registration of the session replaces its entry, and revoking removes it. */
  predicate Drops(op: Op, session: nat) {
    (op.Register? && Registers(op) && op.session == session) || (op.Revoke? && op.session == session)
  }

  predicate Issues(op: Op, token: nat) { op.Register? && Registers(op) && op.token == token }

  /** Step i registered a session under the token, which was neither registered anew nor revoked since. */
  ghost predicate Issued(ops: seq<Op>, i: nat, token: nat) {
    && i < |ops| && Issues(ops[i], token)
    && forall j :: i < j < |ops| ==> !Drops(ops[j], ops[i].session)
  }

  lemma IssuedStep(ops: seq<Op>, i: nat, token: nat)
    requires ops != []
    ensures var n := |ops| - 1;
            Issued(ops, i, token) <==>
              || (i == n && Issues(ops[n], token))
              || (Issued(ops[..n], i, token) && !Drops(ops[n], ops[i].session))
  {
    var n := |ops| - 1;
    if i < n {
      assert ops[..n][i] == ops[i];
      assert forall j :: i < j < n ==> ops[..n][j] == ops[j];
    }
  }

  /** The entry is what the registration made it, but for what browsers and tunnels did since. */
  ghost predicate MadeBy(e: Entry, op: Op)
    requires op.Register?
  {
    e.session == op.session && e.expires == op.expires && forall u :: u in e.open <==> u in Ids(op.tunnels)
  }

  predicate SameEntry(e: Entry, e': Entry) {
    e'.session == e.session && e'.expires == e.expires && e'.open.Keys == e.open.Keys
  }

  lemma EntryLeaves(s: State, op: Op, token: nat)
    requires Inv(s) && Fresh(s, op) && !Issues(op, token)
    ensures token in Step(s, op).entries <==> token in s.entries && !Drops(op, s.entries[token].session)
  {
  }

  lemma EntryStays(s: State, op: Op, token: nat)
    requires Inv(s) && Fresh(s, op) && !Issues(op, token) && token in s.entries && !Drops(op, s.entries[token].session)
    ensures token in Step(s, op).entries && SameEntry(s.entries[token], Step(s, op).entries[token])
  {
  }

  lemma EntryComes(s: State, op: Op, token: nat)
    requires Inv(s) && Fresh(s, op) && Issues(op, token)
    ensures token !in s.entries && token in Step(s, op).entries && MadeBy(Step(s, op).entries[token], op)
  {
  }

  /** A token that stands is on file as its registration made it. */
  lemma {:induction false} IssuedIsOnFile(ops: seq<Op>, i: nat, token: nat)
    requires FreshRun(ops) && Issued(ops, i, token)
    ensures token in Run(ops).entries && MadeBy(Run(ops).entries[token], ops[i])
    decreases |ops|
  {
    var n := |ops| - 1;
    var s := Run(ops[..n]);
    FreshPrefix(ops, n);
    EveryRunKeepsInv(ops[..n]);
    IssuedStep(ops, i, token);
    assert Fresh(s, ops[n]);
    if i == n {
      EntryComes(s, ops[n], token);
    } else {
      IssuedIsOnFile(ops[..n], i, token);
      if Issues(ops[n], token) {
        EntryComes(s, ops[n], token);
        assert false;
      }
      EntryStays(s, ops[n], token);
    }
  }

  lemma {:induction false} OnFileIsIssued(ops: seq<Op>, token: nat) returns (i: nat)
    requires FreshRun(ops) && token in Run(ops).entries
    ensures Issued(ops, i, token) && MadeBy(Run(ops).entries[token], ops[i])
    decreases |ops|
  {
    var n := |ops| - 1;
    var s := Run(ops[..n]);
    FreshPrefix(ops, n);
    EveryRunKeepsInv(ops[..n]);
    assert Fresh(s, ops[n]);
    if Issues(ops[n], token) {
      i := n;
    } else {
      EntryLeaves(s, ops[n], token);
      i := OnFileIsIssued(ops[..n], token);
    }
    IssuedStep(ops, i, token);
    IssuedIsOnFile(ops, i, token);
  }

  /**
   Who may attach: in every run, a browser with the token gets a connection to
   the tunnel exactly when a registration made the token, was neither replaced
   nor revoked since, had not expired at the time, and named the tunnel.
   */
  lemma AttachesExactly(ops: seq<Op>, token: nat, tunnel: nat, now: int)
    requires FreshRun(ops)
    ensures Attaches(Run(ops), Attach(token, tunnel, now)) <==>
              exists i: nat :: Issued(ops, i, token) && now <= ops[i].expires && tunnel in Ids(ops[i].tunnels)
  {
    if token in Run(ops).entries {
      var i := OnFileIsIssued(ops, token);
    }
    if exists i: nat :: Issued(ops, i, token) && now <= ops[i].expires && tunnel in Ids(ops[i].tunnels) {
      var i: nat :| Issued(ops, i, token) && now <= ops[i].expires && tunnel in Ids(ops[i].tunnels);
      IssuedIsOnFile(ops, i, token);
    }
  }

  // ----- frames ------------------------------------------------------------------------------

  function RegistersAt(ops: seq<Op>, session: nat): nat -> bool {
    (i: nat) => i < |ops| && ops[i].Register? && Registers(ops[i]) && ops[i].session == session
  }

  function RevokesAt(ops: seq<Op>, session: nat): nat -> bool {
    (i: nat) => i < |ops| && ops[i].Revoke? && ops[i].session == session
  }

  /** The session was registered and not revoked since. */
  ghost predicate Standing(ops: seq<Op>, session: nat) {
    Since(RegistersAt(ops, session), RevokesAt(ops, session), |ops|)
  }

  lemma HasEntryStep(s: State, op: Op, session: nat)
    requires Inv(s) && Fresh(s, op)
    ensures HasEntry(Step(s, op), session) <==>
              (op.Register? && Registers(op) && op.session == session)
              || (HasEntry(s, session) && !(op.Revoke? && op.session == session))
  {
  }

  lemma {:induction false} EntryIsHistory(ops: seq<Op>, session: nat)
    requires FreshRun(ops)
    ensures HasEntry(Run(ops), session) <==> Standing(ops, session)
    decreases |ops|
  {
    if ops != [] {
      var n := |ops| - 1;
      FreshPrefix(ops, n);
      EveryRunKeepsInv(ops[..n]);
      EntryIsHistory(ops[..n], session);
      SinceGrows(RegistersAt(ops, session), RevokesAt(ops, session), n);
      SinceSame(RegistersAt(ops[..n], session), RevokesAt(ops[..n], session), RegistersAt(ops, session), RevokesAt(ops, session), n);
      assert Fresh(Run(ops[..n]), ops[n]);
      HasEntryStep(Run(ops[..n]), ops[n], session);
    }
  }

  /**
   Whether frames pass the tab check: a registration lets them unless the tab
   was reported inactive, attaching a browser only if it was reported active,
   and after that each report counts.
   */
  function PassesTab(ops: seq<Op>, session: nat): bool {
    if ops == [] then false
    else
      var n := |ops| - 1;
      var op := ops[n];
      if op.SetActive? && op.session == session then op.active
      else if op.Register? && Registers(op) && op.session == session then TabWord(ops[..n], session) != Some(false)
      else if op.Attach? && Attaches(Run(ops[..n]), op) && Run(ops[..n]).entries[op.token].session == session
      then TabWord(ops[..n], session) == Some(true)
      else PassesTab(ops[..n], session)
  }

  lemma ActiveStep(s: State, op: Op, session: nat)
    requires Inv(s) && Fresh(s, op) && HasEntry(Step(s, op), session)
    ensures EntryOf(Step(s, op), session).active ==
              if op.SetActive? && op.session == session then op.active
              else if op.Register? && Registers(op) && op.session == session then (session in s.tab ==> s.tab[session])
              else if op.Attach? && Attaches(s, op) && s.entries[op.token].session == session then session in s.tab && s.tab[session]
              else HasEntry(s, session) && EntryOf(s, session).active
  {
  }

  lemma {:induction false} ActiveIsHistory(ops: seq<Op>, session: nat)
    requires FreshRun(ops) && HasEntry(Run(ops), session)
    ensures EntryOf(Run(ops), session).active == PassesTab(ops, session)
    decreases |ops|
  {
    var n := |ops| - 1;
    var s := Run(ops[..n]);
    FreshPrefix(ops, n);
    EveryRunKeepsInv(ops[..n]);
    TabIsHistory(ops[..n], session);
    assert Fresh(s, ops[n]);
    HasEntryStep(s, ops[n], session);
    ActiveStep(s, ops[n], session);
    if HasEntry(s, session) {
      ActiveIsHistory(ops[..n], session);
    }
  }

  /**
   Every answer and exactly when it is given, over every run: size first, then
   the session, the tab, the rate, and last the tunnel's own stage.
   */
  lemma RouteExactly(ops: seq<Op>, session: nat, tunnel: nat, size: nat, allowed: bool, room: bool)
    requires FreshRun(ops)
    ensures var answer := Route(Run(ops), session, tunnel, size, allowed, room);
            var fits, stage := size <= 65536, StageOf(ops, session, tunnel);
            var heard := fits && Standing(ops, session) && PassesTab(ops, session);
            && (answer == FrameTooLarge <==> !fits)
            && (answer == SessionGone <==> fits && !Standing(ops, session))
            && (answer == TabInactive <==> fits && Standing(ops, session) && !PassesTab(ops, session))
            && (answer == RateLimited <==> heard && !allowed)
            && (answer == TunnelUnknown <==> heard && allowed && stage == Unregistered)
            && (answer == TunnelNotAttached <==> heard && allowed && stage == Waiting)
            && (answer == TunnelClosed <==> heard && allowed && stage == ClosedOff)
            && (answer == Queued <==> heard && allowed && stage == Connected && room)
            && (answer == BufferFull <==> heard && allowed && stage == Connected && !room)
  {
    EntryIsHistory(ops, session);
    if HasEntry(Run(ops), session) {
      ActiveIsHistory(ops, session);
      if EntryOf(Run(ops), session).active && size <= MAX_TUNNEL_FRAME_SIZE {
        RouteFollowsStage(ops, session, tunnel, size, room);
      }
    }
  }
}
