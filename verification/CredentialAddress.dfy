/**
 Whether a member's credential can follow a shared connection to an address they
 never confirmed (internal/usecase/sync_interpret.go): a version from another
 account that repoints the connection suspends its bindings, and exactly one kind
 of version gets past that.
 */
module CredentialAddress {
  import opened Basics
  import opened CredentialKey
  import opened Credentials

  /** The address on file for a connection of a vault. */
  function Address(d: Data, vault: Name, id: Name): Option<nat> {
    match Local(d.connections, vault, id)
    case None => None
    case Some(c) => Some(c.address)
  }

  // ----- what filing a version does to the record on file --------------------------------------

  lemma LocalSnoc(cs: seq<Connection>, c: Connection, vault: Name, id: Name)
    ensures Local(cs + [c], vault, id)
         == if Local(cs, vault, id).Some? then Local(cs, vault, id) else if IsAt(c, vault, id) then Some(c) else None
  {
    var at := (x: Connection) => IsAt(x, vault, id);
    var k, k' := FirstIndex(cs, at), FirstIndex(cs + [c], at);
    assert forall j :: 0 <= j < |cs| ==> (cs + [c])[j] == cs[j];
    assert (cs + [c])[|cs|] == c;
    if k < |cs| {
      assert at((cs + [c])[k]);
    }
  }

  lemma {:induction false} LocalRejecting(cs: seq<Connection>, fits: Connection -> bool, vault: Name, id: Name)
    requires forall c :: c in cs && IsAt(c, vault, id) ==> fits(c) == fits(Connection(vault, id, 0, []))
    ensures Local(Rejecting(cs, fits), vault, id)
         == if fits(Connection(vault, id, 0, [])) then None else Local(cs, vault, id)
    decreases |cs|
  {
    if cs != [] {
      var n := |cs| - 1;
      assert cs == cs[..n] + [cs[n]];
      LocalRejecting(cs[..n], fits, vault, id);
      LocalSnoc(cs[..n], cs[n], vault, id);
      LocalSnoc(Rejecting(cs[..n], fits), cs[n], vault, id);
      var rest := Rejecting(cs[..n], fits);
      assert Rejecting(cs, fits) == if fits(cs[n]) then rest else rest + [cs[n]];
    }
  }

  /** A version takes the place of its own connection and of no other. */
  lemma LocalFiled(cs: seq<Connection>, v: Name, i: Name, version: Option<Connection>, vault: Name, id: Name)
    ensures Local(Filed(cs, v, i, version), vault, id)
         == if v == vault && i == id
            then (if version.Some? then Some(version.value.(vault := v, id := i)) else None)
            else Local(cs, vault, id)
  {
    var at := (c: Connection) => IsAt(c, v, i);
    LocalRejecting(cs, at, vault, id);
    var rest := Rejecting(cs, at);
    if version.Some? {
      LocalSnoc(rest, version.value.(vault := v, id := i), vault, id);
      assert Filed(cs, v, i, version) == rest + [version.value.(vault := v, id := i)];
    } else {
      assert Filed(cs, v, i, version) == rest;
    }
  }

  // ----- who changes an address ------------------------------------------------------------------

  /** The member's own doing: a save, a deletion, a version from another of their devices. */
  predicate Own(op: Op) { !op.Receive? || op.own }

  /** A version arrives for a connection that is not on file and whose deletion was never verified here. */
  predicate Unseen(d: Data, op: Op) {
    op.Receive? && Local(d.connections, op.vault, op.id).None? && !op.buried
  }

  /**
   Another account's version that puts another address on file calls for a
   suspension exactly when it is not unseen.
   */
  lemma OthersAreSuspended(d: Data, op: Op, vault: Name, id: Name)
    requires vault != EMPTY && !Own(op) && Address(Step(d, op), vault, id) != Address(d, vault, id)
    ensures op.vault == vault && op.id == id
    ensures Repoints(d, op) <==> !Unseen(d, op)
  {
    LocalFiled(d.connections, op.vault, op.id, op.version, vault, id);
  }

  predicate ChangesAt(start: Data, ops: seq<Op>, j: nat, vault: Name, id: Name)
    requires j < |ops|
  {
    Address(Step(Run(start, ops[..j]), ops[j]), vault, id) != Address(Run(start, ops[..j]), vault, id)
  }

  /** After step i every change of the connection's address was the member's own, or came unseen. */
  ghost predicate FollowsOwner(start: Data, ops: seq<Op>, i: nat, vault: Name, id: Name) {
    forall j :: i < j < |ops| && ChangesAt(start, ops, j, vault, id) ==> Own(ops[j]) || Unseen(Run(start, ops[..j]), ops[j])
  }

  /**
   Over every run: where a personal credential resolves for a team connection,
   it was bound or its address confirmed at some step, and every change of that
   connection's address since was the member's own - but for a version that came
   unseen.
   */
  lemma CredentialFollowsOwnAddressOnly(start: Data, ops: seq<Op>, c: Connection, u: User, cred: Credential)
    requires start.bindings == [] && AccountsNamed(ops) && c.vault != EMPTY
    requires var d := Run(start, ops);
             var r := ResolvedAs(d, c, u);
             r.error == NoError && Names(r.user, cred) && cred.id != EMPTY && IsPersonal(d, cred)
    ensures var b := Standing(Run(start, ops).bindings, KeyOf(Spot(c.vault, c.id, u.id)));
            && b.Some?
            && exists i :: 0 <= i < |ops| && ForcedAt(start, ops, i, b.value)
                           && (b.value.spot.vault != EMPTY ==>
                                 FollowsOwner(start, ops, i, b.value.spot.vault, b.value.spot.connection))
  {
    PersonalOnlyThroughOwnBinding(start, ops, c, u, cred);
    var b := Standing(Run(start, ops).bindings, KeyOf(Spot(c.vault, c.id, u.id))).value;
    var i :| 0 <= i < |ops| && HeldSince(start, ops, i, b);
    if b.spot.vault != EMPTY {
      forall j | i < j < |ops| && ChangesAt(start, ops, j, b.spot.vault, b.spot.connection)
        ensures Own(ops[j]) || Unseen(Run(start, ops[..j]), ops[j])
      {
        if !Own(ops[j]) {
          OthersAreSuspended(Run(start, ops[..j]), ops[j], b.spot.vault, b.spot.connection);
          assert !SuspendsAt(start, ops, j, b.spot.vault, b.spot.connection);
        }
      }
    }
  }

  // ----- the run that gets past -------------------------------------------------------------------

  const TEAM := Name("team")
  const HOST := Name("host")
  const ME := Name("me")
  const MINE := Name("key")
  const SHARED := User(Name("u"), ByKey, None, None, true)

  function At(address: nat): Connection { Connection(TEAM, HOST, address, [SHARED]) }

  function Before(): Data { Data(map[MINE := EMPTY], map[], [], []) }

  function Mine(): Binding { Binding(Spot(TEAM, HOST, SHARED.id), MINE, EMPTY, EMPTY) }

  /** A connection of the team, bound by this member, deleted on this device, and sent anew by another account. */
  function Unsynced(): seq<Op> {
    [Receive(TEAM, HOST, Some(At(1)), ME, true, false), Bind(Mine()), Delete(HOST),
     Receive(TEAM, HOST, Some(At(2)), Name("other"), false, false)]
  }

  lemma RunGrows(start: Data, ops: seq<Op>, op: Op)
    ensures Run(start, ops + [op]) == Step(Run(start, ops), op)
  {
    assert (ops + [op])[..|ops|] == ops;
  }

  lemma FilesFirst()
    ensures Step(Before(), Unsynced()[0]) == Before().(connections := [At(1)])
  {
    var none: seq<Connection> := [];
    assert none + [At(1)] == [At(1)];
  }

  lemma BindsMine(d: Data)
    requires d == Before().(connections := [At(1)])
    ensures Step(d, Bind(Mine())) == d.(bindings := [Mine()])
  {
    var none: seq<Binding> := [];
    assert none + [Mine()] == [Mine()];
  }

  lemma DeletesHost(d: Data)
    requires d.connections == [At(1)]
    ensures Step(d, Delete(HOST)) == d.(connections := [])
  {
    assert [At(1)][..0] == [];
  }

  lemma FilesAnew(d: Data)
    requires d.connections == []
    ensures Step(d, Unsynced()[3]) == d.(connections := [At(2)]) && Unseen(d, Unsynced()[3])
  {
    var none: seq<Connection> := [];
    assert none + [At(2)] == [At(2)];
  }

  lemma UnsyncedRun()
    ensures Run(Before(), Unsynced()[..3]) == Before().(bindings := [Mine()])
    ensures Run(Before(), Unsynced()) == Before().(bindings := [Mine()], connections := [At(2)])
  {
    var ops := Unsynced();
    assert ops[..1] == [] + [ops[0]] && ops[..2] == ops[..1] + [ops[1]] && ops[..3] == ops[..2] + [ops[2]] && ops == ops[..3] + [ops[3]];
    RunGrows(Before(), [], ops[0]);
    RunGrows(Before(), ops[..1], ops[1]);
    RunGrows(Before(), ops[..2], ops[2]);
    RunGrows(Before(), ops[..3], ops[3]);
    FilesFirst();
    BindsMine(Before().(connections := [At(1)]));
    DeletesHost(Before().(connections := [At(1)], bindings := [Mine()]));
    FilesAnew(Before().(bindings := [Mine()]));
  }

  /**
   Such a run. The deletion was this member's own and has not been verified as
   synced, so the returning version is not taken for a repointing: the binding
   is still in force and its key resolves for an address that only the other
   account ever chose.
   */
  lemma UnsyncedDeletionLetsTheAddressChange()
    ensures var d := Run(Before(), Unsynced());
            && Address(d, TEAM, HOST) == Some(2)
            && ResolvedAs(d, At(2), SHARED).error == NoError
            && Names(ResolvedAs(d, At(2), SHARED).user, OfKey(MINE))
            && Unseen(Run(Before(), Unsynced()[..3]), Unsynced()[3])
  {
    UnsyncedRun();
    FilesAnew(Before().(bindings := [Mine()]));
    ResolvesMine(Run(Before(), Unsynced()));
  }

  lemma ResolvesMine(d: Data)
    requires d == Before().(bindings := [Mine()], connections := [At(2)])
    ensures Address(d, TEAM, HOST) == Some(2)
    ensures var r := ResolvedAs(d, At(2), SHARED); r.error == NoError && Names(r.user, OfKey(MINE))
  {
    assert Standing(d.bindings, KeyOf(Mine().spot)) == Some(Mine());
    assert NamesKey(ResolvedAs(d, At(2), SHARED).user, MINE);
  }
}
