/**
 Which credential a shared connection may use (internal/domain/credential_binding.go,
 internal/domain/credential_adopt.go, internal/usecase/credential_bindings.go), over
 every run of this member's own saves, deletions and bindings, and whatever versions of
 shared connections other accounts send (internal/usecase/sync_interpret.go).
 */
module Credentials {
  import opened Basics
  import opened CredentialKey

  datatype Auth = ByKey | ByPassword | ByOther

  datatype User = User(id: Name, auth: Auth, keys: Option<seq<Name>>, pass: Option<Name>, personal: bool)

  /** The address stands for host, port and jump chain. */
  datatype Connection = Connection(vault: Name, id: Name, address: nat, users: seq<User>)

  datatype Binding = Binding(spot: Spot, identity: Name, password: Name, suspendedBy: Name)

  /** The vaults that own each key and password, this member's bindings, and the connections on file. */
  datatype Data = Data(identities: map<Name, Name>, passwords: map<Name, Name>,
                       bindings: seq<Binding>, connections: seq<Connection>)

  datatype Error = NoError | BindingMissing | BindingSuspended | InvalidConfig | OutsideVault | BindingTarget

  // ----- scope ------------------------------------------------------------------------

  function KeysOf(u: User): seq<Name> { if u.keys.Some? then u.keys.value else [] }

  predicate NamesKey(u: User, id: Name) { id in KeysOf(u) }

  predicate NamesPassword(u: User, id: Name) { u.pass == Some(id) }

  /** Every credential the user names is kept in the given vault, or nowhere. */
  predicate InScope(d: Data, vault: Name, u: User) {
    && (forall id :: NamesKey(u, id) && id in d.identities ==> d.identities[id] == vault)
    && (forall id :: NamesPassword(u, id) && id != EMPTY && id in d.passwords ==> d.passwords[id] == vault)
  }

  method CheckCredentialScope(d: Data, vault: Name, u: User) returns (error: Error)
    ensures error == if vault == EMPTY || InScope(d, vault, u) then NoError else OutsideVault
  {
    if vault == EMPTY {
      return NoError;
    }
    if u.keys.Some? {
      for i := 0 to |u.keys.value|
        invariant forall k :: 0 <= k < i && u.keys.value[k] in d.identities ==> d.identities[u.keys.value[k]] == vault
      {
        var id := u.keys.value[i];
        if id in d.identities && d.identities[id] != vault {
          assert NamesKey(u, id);
          return OutsideVault;
        }
      }
    }
    if u.pass.Some? && u.pass.value != EMPTY {
      if u.pass.value in d.passwords && d.passwords[u.pass.value] != vault {
        assert NamesPassword(u, u.pass.value);
        return OutsideVault;
      }
    }
    return NoError;
  }

  // ----- the list of bindings -----------------------------------------------------------

  /** The binding that counts for a user: the last one filed under its key. */
  function Standing(bindings: seq<Binding>, key: Key): Option<Binding> {
    if bindings == [] then None
    else
      var n := |bindings| - 1;
      if KeyOf(bindings[n].spot) == key then Some(bindings[n]) else Standing(bindings[..n], key)
  }

  predicate OnePerKey(bindings: seq<Binding>) {
    forall i, j :: 0 <= i < j < |bindings| ==> KeyOf(bindings[i].spot) != KeyOf(bindings[j].spot)
  }

  /** The list without what is filed under the key. */
  function Without(bindings: seq<Binding>, key: Key): seq<Binding> {
    Rejecting(bindings, (b: Binding) => KeyOf(b.spot) == key)
  }

  function Put(bindings: seq<Binding>, b: Binding): seq<Binding> {
    Without(bindings, KeyOf(b.spot)) + [b.(suspendedBy := EMPTY)]
  }

  predicate Concerns(b: Binding, vault: Name, connection: Name) {
    b.spot.vault == vault && b.spot.connection == connection
  }

  function Suspended(bindings: seq<Binding>, vault: Name, connection: Name, account: Name): seq<Binding> {
    seq(|bindings|, i requires 0 <= i < |bindings| =>
      if Concerns(bindings[i], vault, connection) then bindings[i].(suspendedBy := account) else bindings[i])
  }

  /** The first place filed under the key, or the length. */
  function FirstAt(bindings: seq<Binding>, key: Key): nat {
    FirstIndex(bindings, (b: Binding) => KeyOf(b.spot) == key)
  }

  function Confirmed(bindings: seq<Binding>, key: Key): seq<Binding> {
    var k := FirstAt(bindings, key);
    if k == |bindings| then bindings else bindings[k := bindings[k].(suspendedBy := EMPTY)]
  }

  lemma {:induction false} StandingIs(bindings: seq<Binding>, key: Key)
    ensures Standing(bindings, key).Some? ==>
              Standing(bindings, key).value in bindings && KeyOf(Standing(bindings, key).value.spot) == key
    ensures Standing(bindings, key).None? ==> forall b :: b in bindings ==> KeyOf(b.spot) != key
    decreases |bindings|
  {
    if bindings != [] {
      var n := |bindings| - 1;
      assert bindings == bindings[..n] + [bindings[n]];
      StandingIs(bindings[..n], key);
    }
  }

  lemma StandingAt(bindings: seq<Binding>, k: nat)
    requires OnePerKey(bindings) && k < |bindings|
    ensures Standing(bindings, KeyOf(bindings[k].spot)) == Some(bindings[k])
  {
    StandingIs(bindings, KeyOf(bindings[k].spot));
    assert bindings[k] in bindings;
  }

  lemma {:induction false} WithoutKeeps(bindings: seq<Binding>, gone: Key, key: Key)
    requires OnePerKey(bindings)
    ensures Standing(Without(bindings, gone), key) == if key == gone then None else Standing(bindings, key)
    ensures OnePerKey(Without(bindings, gone))
    ensures forall b :: b in Without(bindings, gone) ==> b in bindings && KeyOf(b.spot) != gone
    decreases |bindings|
  {
    if bindings != [] {
      var n := |bindings| - 1;
      WithoutKeeps(bindings[..n], gone, key);
      var rest := Without(bindings[..n], gone);
      assert Without(bindings, gone) == if KeyOf(bindings[n].spot) == gone then rest else rest + [bindings[n]];
      assert (rest + [bindings[n]])[..|rest|] == rest;
      assert forall b :: b in bindings[..n] ==> KeyOf(b.spot) != KeyOf(bindings[n].spot);
    }
  }

  lemma PutKeeps(bindings: seq<Binding>, b: Binding, key: Key)
    requires OnePerKey(bindings)
    ensures OnePerKey(Put(bindings, b))
    ensures Standing(Put(bindings, b), key)
         == if key == KeyOf(b.spot) then Some(b.(suspendedBy := EMPTY)) else Standing(bindings, key)
  {
    WithoutKeeps(bindings, KeyOf(b.spot), key);
    var rest := Without(bindings, KeyOf(b.spot));
    assert Put(bindings, b)[..|rest|] == rest;
  }

  /** A list edited place by place without moving a key has its standing bindings edited alike. */
  lemma StandingFollows(before: seq<Binding>, after: seq<Binding>, key: Key)
    requires OnePerKey(before) && |before| == |after|
    requires forall i :: 0 <= i < |before| ==> before[i].spot == after[i].spot
    ensures OnePerKey(after)
    ensures Standing(before, key).None? ==> Standing(after, key).None?
    ensures Standing(before, key).Some? ==>
              exists i :: 0 <= i < |before| && Standing(before, key) == Some(before[i]) && Standing(after, key) == Some(after[i])
  {
    StandingIs(before, key);
    StandingIs(after, key);
    if Standing(before, key).Some? {
      var i :| 0 <= i < |before| && before[i] == Standing(before, key).value;
      StandingAt(after, i);
    }
  }

  lemma ConfirmKeeps(bindings: seq<Binding>, confirmed: Key, key: Key)
    requires OnePerKey(bindings)
    ensures OnePerKey(Confirmed(bindings, confirmed))
    ensures var was := Standing(bindings, key);
            Standing(Confirmed(bindings, confirmed), key)
            == if confirmed == key && was.Some? then Some(was.value.(suspendedBy := EMPTY)) else was
  {
    StandingIs(bindings, key);
    StandingFollows(bindings, Confirmed(bindings, confirmed), key);
    var k := FirstAt(bindings, confirmed);
    if k < |bindings| {
      StandingAt(bindings, k);
    }
  }

  lemma SuspendKeeps(bindings: seq<Binding>, vault: Name, connection: Name, account: Name, key: Key)
    requires OnePerKey(bindings)
    ensures OnePerKey(Suspended(bindings, vault, connection, account))
    ensures var was := Standing(bindings, key);
            Standing(Suspended(bindings, vault, connection, account), key)
            == if was.Some? && Concerns(was.value, vault, connection) then Some(was.value.(suspendedBy := account)) else was
  {
    StandingFollows(bindings, Suspended(bindings, vault, connection, account), key);
  }

  // ----- resolving ------------------------------------------------------------------------

  datatype Resolved = Resolved(user: User, error: Error)

  predicate Owned(d: Data, b: Binding) {
    if b.identity != EMPTY then b.identity in d.identities && d.identities[b.identity] == EMPTY
    else b.password != EMPTY && b.password in d.passwords && d.passwords[b.password] == EMPTY
  }

  /** The user with the binding's credential and no other. */
  function Bound(u: User, b: Binding): User {
    if b.identity != EMPTY then u.(auth := ByKey, keys := Some([b.identity]), pass := None)
    else u.(auth := ByPassword, keys := None, pass := Some(b.password))
  }

  function ResolvedAs(d: Data, c: Connection, u: User): Resolved {
    if !u.personal then Resolved(u, if c.vault == EMPTY || InScope(d, c.vault, u) then NoError else OutsideVault)
    else
      match Standing(d.bindings, KeyOf(Spot(c.vault, c.id, u.id)))
      case None => Resolved(u, BindingMissing)
      case Some(b) =>
        if b.suspendedBy != EMPTY then Resolved(u, BindingSuspended)
        else if u.auth.ByOther? then Resolved(u, InvalidConfig)
        else if Owned(d, b) then Resolved(Bound(u, b), NoError)
        else Resolved(u.(keys := None, pass := None), BindingMissing)
  }

  /** The last binding filed under the key is the one at i. */
  predicate LastUnder(bindings: seq<Binding>, key: Key, i: nat) {
    i < |bindings| && KeyOf(bindings[i].spot) == key && forall j :: i < j < |bindings| ==> KeyOf(bindings[j].spot) != key
  }

  predicate NoneUnder(bindings: seq<Binding>, key: Key) {
    forall i :: 0 <= i < |bindings| ==> KeyOf(bindings[i].spot) != key
  }

  lemma NoneStands(bindings: seq<Binding>, key: Key)
    requires NoneUnder(bindings, key)
    ensures Standing(bindings, key).None?
  {
    StandingIs(bindings, key);
  }

  lemma {:induction false} LastStands(bindings: seq<Binding>, key: Key, i: nat)
    requires LastUnder(bindings, key, i)
    ensures Standing(bindings, key) == Some(bindings[i])
    decreases |bindings|
  {
    var n := |bindings| - 1;
    if i < n {
      assert KeyOf(bindings[n].spot) != key;
      assert LastUnder(bindings[..n], key, i);
      LastStands(bindings[..n], key, i);
    }
  }

  /** What a personal user's own binding makes of it: each answer and when it is given, and the user that comes with it. */
  predicate BoundBy(d: Data, b: Binding, user: User, u: User, error: Error) {
    var held := if b.identity != EMPTY then b.identity in d.identities && d.identities[b.identity] == EMPTY
                else b.password != EMPTY && b.password in d.passwords && d.passwords[b.password] == EMPTY;
    && (error == BindingSuspended <==> b.suspendedBy != EMPTY)
    && (error == InvalidConfig <==> b.suspendedBy == EMPTY && user.auth.ByOther?)
    && (error == BindingMissing <==> b.suspendedBy == EMPTY && !user.auth.ByOther? && !held)
    && (error == NoError <==> b.suspendedBy == EMPTY && !user.auth.ByOther? && held)
    && u.id == user.id && u.personal == user.personal
    && match error
       case NoError =>
         if b.identity != EMPTY then u.auth == ByKey && u.keys == Some([b.identity]) && u.pass == None
         else u.auth == ByPassword && u.keys == None && u.pass == Some(b.password)
       case BindingMissing => u.auth == user.auth && u.keys == None && u.pass == None
       case _ => u == user
  }

  /**
   What resolving answers: an inline credential is used as it is, within its own
   vault; a personal user depends on the last binding under its key, and the
   binding alone decides between key and password.
   */
  ghost predicate ResolvesTo(d: Data, c: Connection, user: User, u: User, error: Error) {
    var key := KeyOf(Spot(c.vault, c.id, user.id));
    && (!user.personal ==> u == user && error == if c.vault == EMPTY || InScope(d, c.vault, user) then NoError else OutsideVault)
    && (user.personal && NoneUnder(d.bindings, key) ==> u == user && error == BindingMissing)
    && (user.personal ==> forall i: nat :: LastUnder(d.bindings, key, i) ==> BoundBy(d, d.bindings[i], user, u, error))
  }

  lemma ResolvedMeans(d: Data, c: Connection, user: User)
    ensures ResolvesTo(d, c, user, ResolvedAs(d, c, user).user, ResolvedAs(d, c, user).error)
  {
    var key := KeyOf(Spot(c.vault, c.id, user.id));
    if NoneUnder(d.bindings, key) {
      NoneStands(d.bindings, key);
    }
    forall i: nat | LastUnder(d.bindings, key, i)
      ensures Standing(d.bindings, key) == Some(d.bindings[i])
    {
      LastStands(d.bindings, key, i);
    }
  }

  method ResolveCredentials(d: Data, c: Connection, user: User) returns (u: User, error: Error)
    ensures ResolvesTo(d, c, user, u, error)
    ensures Resolved(u, error) == ResolvedAs(d, c, user)
  {
    ResolvedMeans(d, c, user);
    u := user;
    if !user.personal {
      error := CheckCredentialScope(d, c.vault, user);
      return;
    }
    var key := KeyOf(Spot(c.vault, c.id, user.id));
    var found: Option<Binding> := None;
    for i := 0 to |d.bindings|
      invariant found == Standing(d.bindings[..i], key)
    {
      assert d.bindings[..i + 1][..i] == d.bindings[..i];
      if KeyOf(d.bindings[i].spot) == key {
        found := Some(d.bindings[i]);
      }
    }
    assert d.bindings[..|d.bindings|] == d.bindings;
    if found.None? {
      return u, BindingMissing;
    }
    var b := found.value;
    if b.suspendedBy != EMPTY {
      return u, BindingSuspended;
    }
    if user.auth != ByKey && user.auth != ByPassword {
      return u, InvalidConfig;
    }
    u := u.(keys := None, pass := None);
    if b.identity != EMPTY {
      if b.identity !in d.identities || d.identities[b.identity] != EMPTY {
        return u, BindingMissing;
      }
      return u.(auth := ByKey, keys := Some([b.identity])), NoError;
    } else if b.password != EMPTY {
      if b.password !in d.passwords || d.passwords[b.password] != EMPTY {
        return u, BindingMissing;
      }
      return u.(auth := ByPassword, pass := Some(b.password)), NoError;
    }
    return u, BindingMissing;
  }

  // ----- adopting what a save introduces -----------------------------------------------------

  datatype Credential = OfKey(id: Name) | OfPassword(id: Name)

  predicate Names(u: User, cred: Credential) {
    match cred
    case OfKey(id) => NamesKey(u, id)
    case OfPassword(id) => NamesPassword(u, id)
  }

  predicate IsPersonal(d: Data, cred: Credential) {
    match cred
    case OfKey(id) => id in d.identities && d.identities[id] == EMPTY
    case OfPassword(id) => id in d.passwords && d.passwords[id] == EMPTY
  }

  function BindingOf(spot: Spot, cred: Credential): Binding {
    match cred
    case OfKey(id) => Binding(spot, id, EMPTY, EMPTY)
    case OfPassword(id) => Binding(spot, EMPTY, id, EMPTY)
  }

  /** cred is a personal credential of the user's method that the record on file did not name. */
  predicate IsNew(d: Data, u: User, before: Option<User>, cred: Credential) {
    && Names(u, cred)
    && IsPersonal(d, cred)
    && (before.Some? ==> !Names(before.value, cred))
    && (if cred.OfKey? then u.auth.ByKey? else u.auth.ByPassword? && cred.id != EMPTY)
  }

  function FirstNewKey(d: Data, u: User, before: Option<User>, ids: seq<Name>): Option<Credential> {
    if ids == [] then None
    else if IsNew(d, u, before, OfKey(ids[0])) then Some(OfKey(ids[0]))
    else FirstNewKey(d, u, before, ids[1..])
  }

  function Introduced(d: Data, u: User, before: Option<User>): Option<Credential> {
    if u.auth.ByKey? then FirstNewKey(d, u, before, KeysOf(u))
    else if u.pass.Some? && IsNew(d, u, before, OfPassword(u.pass.value)) then Some(OfPassword(u.pass.value))
    else None
  }

  lemma {:induction false} FirstNewKeyIs(d: Data, u: User, before: Option<User>, ids: seq<Name>)
    ensures var r := FirstNewKey(d, u, before, ids);
            if r.Some? then IsNew(d, u, before, r.value) else forall id :: id in ids ==> !IsNew(d, u, before, OfKey(id))
    decreases |ids|
  {
    if ids != [] {
      FirstNewKeyIs(d, u, before, ids[1..]);
    }
  }

  /** Something is adopted exactly when the save names a personal credential the stored user did not. */
  lemma IntroducedMeansNew(d: Data, u: User, before: Option<User>)
    ensures var r := Introduced(d, u, before);
            && (r.Some? ==> IsNew(d, u, before, r.value))
            && (r.None? ==> forall cred :: !IsNew(d, u, before, cred))
  {
    FirstNewKeyIs(d, u, before, KeysOf(u));
  }

  function UserOf(stored: Option<Connection>, id: Name): Option<User> {
    if stored.None? then None else FirstUser(stored.value.users, id)
  }

  function FirstUser(users: seq<User>, id: Name): Option<User> {
    if users == [] then None else if users[0].id == id then Some(users[0]) else FirstUser(users[1..], id)
  }

  /** What the save adopts for the user at a place, if anything. */
  function AdoptedFor(d: Data, stored: Option<Connection>, u: User): Option<Credential> {
    if u.personal then None else Introduced(d, u, UserOf(stored, u.id))
  }

  function MadePersonal(u: User): User { u.(keys := None, pass := None, personal := true) }

  /** The bindings and users after the first n users of the connection were looked at. */
  function AdoptedBindings(d: Data, c: Connection, stored: Option<Connection>, n: nat): seq<Binding>
    requires n <= |c.users|
  {
    if n == 0 then d.bindings
    else
      var before := AdoptedBindings(d, c, stored, n - 1);
      var u := c.users[n - 1];
      match AdoptedFor(d, stored, u)
      case None => before
      case Some(cred) => Put(before, BindingOf(Spot(c.vault, c.id, u.id), cred))
  }

  function AdoptedUser(d: Data, stored: Option<Connection>, u: User): User {
    if AdoptedFor(d, stored, u).Some? then MadePersonal(u) else u
  }

  function AdoptedConnection(d: Data, c: Connection, stored: Option<Connection>): Connection {
    if c.vault == EMPTY || c.id == EMPTY then c
    else c.(users := seq(|c.users|, i requires 0 <= i < |c.users| => AdoptedUser(d, stored, c.users[i])))
  }

  function AfterAdopting(d: Data, c: Connection, stored: Option<Connection>): seq<Binding> {
    if c.vault == EMPTY || c.id == EMPTY then d.bindings else AdoptedBindings(d, c, stored, |c.users|)
  }

  /** The binding that adopting makes for the user at a place. */
  function AdoptedAt(d: Data, c: Connection, stored: Option<Connection>, k: nat): Option<Binding>
    requires k < |c.users|
  {
    match AdoptedFor(d, stored, c.users[k])
    case None => None
    case Some(cred) => Some(BindingOf(Spot(c.vault, c.id, c.users[k].id), cred))
  }

  /** The last binding made under a key among the first n users. */
  function Picked(d: Data, c: Connection, stored: Option<Connection>, n: nat, key: Key): Option<Binding>
    requires n <= |c.users|
  {
    if n == 0 then None
    else
      var made := AdoptedAt(d, c, stored, n - 1);
      if made.Some? && KeyOf(made.value.spot) == key then made else Picked(d, c, stored, n - 1, key)
  }

  lemma {:induction false} AdoptingBinds(d: Data, c: Connection, stored: Option<Connection>, n: nat, key: Key)
    requires OnePerKey(d.bindings) && n <= |c.users|
    ensures OnePerKey(AdoptedBindings(d, c, stored, n))
    ensures var picked := Picked(d, c, stored, n, key);
            Standing(AdoptedBindings(d, c, stored, n), key) == if picked.Some? then picked else Standing(d.bindings, key)
    decreases n
  {
    if n > 0 {
      AdoptingBinds(d, c, stored, n - 1, key);
      AdoptedOneMore(d, c, stored, n);
      BindOnce(AdoptedBindings(d, c, stored, n - 1), AdoptedAt(d, c, stored, n - 1), key);
    }
  }

  lemma AdoptedOneMore(d: Data, c: Connection, stored: Option<Connection>, n: nat)
    requires 0 < n <= |c.users|
    ensures var before, made := AdoptedBindings(d, c, stored, n - 1), AdoptedAt(d, c, stored, n - 1);
            && AdoptedBindings(d, c, stored, n) == (if made.Some? then Put(before, made.value) else before)
            && (made.Some? ==> made.value.suspendedBy == EMPTY)
  {
  }

  /** What adopting for one user does to the list and to any register in it. */
  lemma BindOnce(before: seq<Binding>, made: Option<Binding>, key: Key)
    requires OnePerKey(before) && (made.Some? ==> made.value.suspendedBy == EMPTY)
    ensures var after := if made.Some? then Put(before, made.value) else before;
            && OnePerKey(after)
            && Standing(after, key) == if made.Some? && KeyOf(made.value.spot) == key then made else Standing(before, key)
  {
    if made.Some? {
      PutKeeps(before, made.value, key);
    }
  }

  lemma {:induction false} PickedIs(d: Data, c: Connection, stored: Option<Connection>, n: nat, key: Key)
    requires n <= |c.users|
    ensures var r := Picked(d, c, stored, n, key);
            r.Some? ==> KeyOf(r.value.spot) == key && exists k :: 0 <= k < n && AdoptedAt(d, c, stored, k) == r
    ensures Picked(d, c, stored, n, key).None? ==>
              forall k :: 0 <= k < n && AdoptedAt(d, c, stored, k).Some? ==> KeyOf(AdoptedAt(d, c, stored, k).value.spot) != key
    decreases n
  {
    if n > 0 {
      PickedIs(d, c, stored, n - 1, key);
    }
  }

  // ----- whole runs -----------------------------------------------------------------------------

  datatype Op =
    /** This member saves a connection; home is the vault its folder allows, None when the save is refused. */
    | Save(c: Connection, newId: Name, home: Option<Name>)
    | Bind(b: Binding)
    | Confirm(spot: Spot)
    /** This member deletes a connection on this device. */
    | Delete(id: Name)
    /**
     A version of a shared connection, None for its deletion, arrives from an
     account: one's own, or another's. buried says that a deletion of the
     connection was verified here before.
     */
    | Receive(vault: Name, id: Name, version: Option<Connection>, account: Name, own: bool, buried: bool)
    /** Keys and passwords come and go. */
    | Restock(identities: map<Name, Name>, passwords: map<Name, Name>)

  function IndexOf(connections: seq<Connection>, id: Name): nat {
    FirstIndex(connections, (c: Connection) => c.id == id)
  }

  /** The record a save is compared with, and the record it starts from. */
  function OnFile(d: Data, c: Connection): Option<Connection> {
    var k := IndexOf(d.connections, c.id);
    if c.id == EMPTY || k == |d.connections| then None else Some(d.connections[k])
  }

  function Placed(d: Data, c: Connection, newId: Name, home: Name): Connection {
    if c.id == EMPTY then c.(id := newId, vault := home)
    else if OnFile(d, c).Some? then c.(vault := OnFile(d, c).value.vault)
    else c.(vault := EMPTY)
  }

  function Saved(d: Data, c: Connection, newId: Name, home: Name): Data {
    var placed := Placed(d, c, newId, home);
    var kept := AdoptedConnection(d, placed, OnFile(d, c));
    var k := IndexOf(d.connections, c.id);
    d.(bindings := AfterAdopting(d, placed, OnFile(d, c)),
       connections := if OnFile(d, c).Some? then d.connections[k := kept] else d.connections + [kept])
  }

  predicate Bindable(d: Data, b: Binding) {
    && b.spot.vault != EMPTY && b.spot.connection != EMPTY && b.spot.user != EMPTY
    && (b.identity == EMPTY) != (b.password == EMPTY)
    && Owned(d, b)
  }

  predicate IsAt(c: Connection, vault: Name, id: Name) { c.vault == vault && c.id == id }

  /** The record on file for a connection of a vault. */
  function Local(connections: seq<Connection>, vault: Name, id: Name): Option<Connection> {
    var k := FirstIndex(connections, (c: Connection) => IsAt(c, vault, id));
    if k == |connections| then None else Some(connections[k])
  }

  /** The records once a version took the place of what was there. */
  function Filed(connections: seq<Connection>, vault: Name, id: Name, version: Option<Connection>): seq<Connection> {
    Rejecting(connections, (c: Connection) => IsAt(c, vault, id))
    + if version.Some? then [version.value.(vault := vault, id := id)] else []
  }

  /**
   Another account's version may point this member's bindings at an address
   they never confirmed: a deletion, a return from a verified deletion, or an
   address other than the one on file.
   */
  predicate Repoints(d: Data, op: Op)
    requires op.Receive?
  {
    && op.vault != EMPTY && !op.own
    && (op.version.None?
        || (match Local(d.connections, op.vault, op.id)
            case None => op.buried
            case Some(local) => local.address != op.version.value.address))
  }

  function Step(d: Data, op: Op): Data {
    match op
    case Save(c, newId, home) => if home.None? then d else Saved(d, c, newId, home.value)
    case Bind(b) => if Bindable(d, b) then d.(bindings := Put(d.bindings, b)) else d
    case Confirm(spot) => d.(bindings := Confirmed(d.bindings, KeyOf(spot)))
    case Delete(id) => d.(connections := Rejecting(d.connections, (c: Connection) => c.id == id))
    case Receive(vault, id, version, account, _, _) =>
      d.(connections := Filed(d.connections, vault, id, version),
         bindings := if Repoints(d, op) then Suspended(d.bindings, vault, id, account) else d.bindings)
    case Restock(identities, passwords) => d.(identities := identities, passwords := passwords)
  }

  function Run(start: Data, ops: seq<Op>): Data {
    if ops == [] then start else Step(Run(start, ops[..|ops| - 1]), ops[|ops| - 1])
  }

  /** The binding this member's save makes under the key. */
  function SavePicks(d: Data, op: Op, key: Key): Option<Binding>
    requires op.Save?
  {
    if op.home.None? then None
    else
      var placed := Placed(d, op.c, op.newId, op.home.value);
      if placed.vault == EMPTY || placed.id == EMPTY then None
      else Picked(d, placed, OnFile(d, op.c), |placed.users|, key)
  }

  /** What is filed under one key as a register of its own: what each operation does to it. */
  function Ledger(d: Data, op: Op, key: Key, was: Option<Binding>): Option<Binding> {
    match op
    case Save(_, _, _) => if SavePicks(d, op, key).Some? then SavePicks(d, op, key) else was
    case Bind(b) => if Bindable(d, b) && KeyOf(b.spot) == key then Some(b.(suspendedBy := EMPTY)) else was
    case Confirm(spot) => if KeyOf(spot) == key && was.Some? then Some(was.value.(suspendedBy := EMPTY)) else was
    case Delete(_) => was
    case Receive(vault, id, _, account, _, _) =>
      if was.Some? && Repoints(d, op) && Concerns(was.value, vault, id) then Some(was.value.(suspendedBy := account)) else was
    case Restock(_, _) => was
  }

  /**
   The list of bindings is one register per key: each operation does to every
   register what it says and nothing else, and all that another account's version
   can do to one is suspend it.
   */
  lemma StepRefinesLedger(d: Data, op: Op, key: Key)
    requires OnePerKey(d.bindings)
    ensures OnePerKey(Step(d, op).bindings)
    ensures Standing(Step(d, op).bindings, key) == Ledger(d, op, key, Standing(d.bindings, key))
  {
    match op
    case Save(_, _, _) => SaveRefinesLedger(d, op, key);
    case Bind(b) => PutKeeps(d.bindings, b, key);
    case Confirm(spot) => ConfirmKeeps(d.bindings, KeyOf(spot), key);
    case Delete(_) =>
    case Receive(vault, id, _, account, _, _) => SuspendKeeps(d.bindings, vault, id, account, key);
    case Restock(_, _) =>
  }

  lemma SaveRefinesLedger(d: Data, op: Op, key: Key)
    requires OnePerKey(d.bindings) && op.Save?
    ensures OnePerKey(Step(d, op).bindings)
    ensures Standing(Step(d, op).bindings, key) == Ledger(d, op, key, Standing(d.bindings, key))
  {
    if op.home.Some? {
      var placed := Placed(d, op.c, op.newId, op.home.value);
      AdoptingBinds(d, placed, OnFile(d, op.c), |placed.users|, key);
    }
  }

  /** At step i this member made b: by Bind, or by a save that newly named the credential. */
  ghost predicate MadeAt(start: Data, ops: seq<Op>, i: nat, b: Binding)
    requires i < |ops|
  {
    var d := Run(start, ops[..i]);
    match ops[i]
    case Bind(made) => Bindable(d, made) && made.spot == b.spot && made.identity == b.identity && made.password == b.password
    case Save(c, newId, home) =>
      && home.Some?
      && var placed := Placed(d, c, newId, home.value);
      && placed.vault == b.spot.vault && placed.id == b.spot.connection
      && exists k, cred ::
           && 0 <= k < |c.users|
           && !c.users[k].personal && c.users[k].id == b.spot.user
           && IsNew(d, c.users[k], UserOf(OnFile(d, c), b.spot.user), cred)
           && BindingOf(b.spot, cred) == b.(suspendedBy := EMPTY)
    case _ => false
  }

  /** At step i the register of b came into force: it was made, or the member confirmed the address. */
  ghost predicate ForcedAt(start: Data, ops: seq<Op>, i: nat, b: Binding)
    requires i < |ops|
  {
    MadeAt(start, ops, i, b) || (ops[i].Confirm? && KeyOf(ops[i].spot) == KeyOf(b.spot))
  }

  /** At step j another account's version called for a suspension of the connection. */
  predicate SuspendsAt(start: Data, ops: seq<Op>, j: nat, vault: Name, connection: Name)
    requires j < |ops|
  {
    ops[j].Receive? && ops[j].vault == vault && ops[j].id == connection && Repoints(Run(start, ops[..j]), ops[j])
  }

  ghost predicate NotSuspendedAfter(start: Data, ops: seq<Op>, i: int, spot: Spot) {
    forall j :: 0 <= j < |ops| && i < j ==> !SuspendsAt(start, ops, j, spot.vault, spot.connection)
  }

  /** Another account always has a name. */
  predicate AccountsNamed(ops: seq<Op>) {
    forall i :: 0 <= i < |ops| && ops[i].Receive? && !ops[i].own ==> ops[i].account != EMPTY
  }

  ghost predicate Traced(start: Data, ops: seq<Op>, b: Binding) {
    exists i :: 0 <= i < |ops| && MadeAt(start, ops, i, b)
  }

  ghost predicate InForce(start: Data, ops: seq<Op>, b: Binding) {
    exists i :: 0 <= i < |ops| && HeldSince(start, ops, i, b)
  }

  /** b came into force at step i and was not suspended since. */
  ghost predicate HeldSince(start: Data, ops: seq<Op>, i: nat, b: Binding)
    requires i < |ops|
  {
    ForcedAt(start, ops, i, b) && NotSuspendedAfter(start, ops, i, b.spot)
  }

  lemma SaveMakes(start: Data, ops: seq<Op>, key: Key)
    requires ops != []
    requires ops[|ops| - 1].Save?
    requires SavePicks(Run(start, ops[..|ops| - 1]), ops[|ops| - 1], key).Some?
    ensures var b := SavePicks(Run(start, ops[..|ops| - 1]), ops[|ops| - 1], key).value;
            MadeAt(start, ops, |ops| - 1, b) && KeyOf(b.spot) == key && b.suspendedBy == EMPTY
  {
    var d, op := Run(start, ops[..|ops| - 1]), ops[|ops| - 1];
    var placed := Placed(d, op.c, op.newId, op.home.value);
    var b := SavePicks(d, op, key).value;
    PickedIs(d, placed, OnFile(d, op.c), |placed.users|, key);
    assert placed.users == op.c.users;
    var k :| 0 <= k < |placed.users| && AdoptedAt(d, placed, OnFile(d, op.c), k) == Some(b);
    var cred := AdoptedFor(d, OnFile(d, op.c), op.c.users[k]).value;
    IntroducedMeansNew(d, op.c.users[k], UserOf(OnFile(d, op.c), b.spot.user));
    assert BindingOf(b.spot, cred) == b.(suspendedBy := EMPTY);
  }

  lemma TraceExtends(start: Data, ops: seq<Op>, b: Binding, b': Binding)
    requires ops != [] && b'.(suspendedBy := EMPTY) == b.(suspendedBy := EMPTY)
    requires Traced(start, ops[..|ops| - 1], b)
    ensures Traced(start, ops, b')
  {
    var before := ops[..|ops| - 1];
    var i :| 0 <= i < |before| && MadeAt(start, before, i, b);
    assert ops[..i] == before[..i] && ops[i] == before[i];
    assert MadeAt(start, ops, i, b');
  }

  lemma ForceExtends(start: Data, ops: seq<Op>, b: Binding)
    requires ops != [] && InForce(start, ops[..|ops| - 1], b)
    requires !SuspendsAt(start, ops, |ops| - 1, b.spot.vault, b.spot.connection)
    ensures InForce(start, ops, b)
  {
    var before := ops[..|ops| - 1];
    var i :| 0 <= i < |before| && HeldSince(start, before, i, b);
    HeldExtends(start, ops, i, b);
  }

  lemma HeldExtends(start: Data, ops: seq<Op>, i: nat, b: Binding)
    requires i < |ops| - 1 && HeldSince(start, ops[..|ops| - 1], i, b)
    requires !SuspendsAt(start, ops, |ops| - 1, b.spot.vault, b.spot.connection)
    ensures HeldSince(start, ops, i, b)
  {
    var n := |ops| - 1;
    ForcedEarlier(start, ops, n, i, b);
    NoneSuspendsAfter(start, ops, i, b.spot);
  }

  lemma ForcedEarlier(start: Data, ops: seq<Op>, n: nat, i: nat, b: Binding)
    requires i < n <= |ops| && ForcedAt(start, ops[..n], i, b)
    ensures ForcedAt(start, ops, i, b)
  {
    assert ops[..n][..i] == ops[..i] && ops[..n][i] == ops[i];
  }

  lemma SuspendsEarlier(start: Data, ops: seq<Op>, n: nat, j: nat, spot: Spot)
    requires j < n <= |ops|
    ensures SuspendsAt(start, ops[..n], j, spot.vault, spot.connection) == SuspendsAt(start, ops, j, spot.vault, spot.connection)
  {
    assert ops[..n][..j] == ops[..j];
  }

  ghost predicate HasHistory(start: Data, ops: seq<Op>, key: Key, b: Option<Binding>) {
    b.Some? ==> KeyOf(b.value.spot) == key && Traced(start, ops, b.value) && (b.value.suspendedBy == EMPTY ==> InForce(start, ops, b.value))
  }

  /**
   Every binding has a history: over every run from an empty list, each binding
   was made by this member's own Bind or save, and one that is in force was made
   or confirmed after the last change of address by another account.
   */
  lemma {:induction false} EveryBindingIsTraced(start: Data, ops: seq<Op>, key: Key)
    requires start.bindings == [] && AccountsNamed(ops)
    ensures OnePerKey(Run(start, ops).bindings)
    ensures HasHistory(start, ops, key, Standing(Run(start, ops).bindings, key))
    decreases |ops|
  {
    if ops != [] {
      var n := |ops| - 1;
      EveryBindingIsTraced(start, ops[..n], key);
      var d, op := Run(start, ops[..n]), ops[n];
      StepRefinesLedger(d, op, key);
      RegisterIsTraced(start, ops, key, Standing(d.bindings, key));
    }
  }

  /** One more operation: a register it sets has its history there, any other keeps the one it had. */
  lemma RegisterIsTraced(start: Data, ops: seq<Op>, key: Key, was: Option<Binding>)
    requires ops != [] && AccountsNamed(ops) && HasHistory(start, ops[..|ops| - 1], key, was)
    ensures var n := |ops| - 1; HasHistory(start, ops, key, Ledger(Run(start, ops[..n]), ops[n], key, was))
  {
    var n := |ops| - 1;
    var d, op := Run(start, ops[..n]), ops[n];
    var now := Ledger(d, op, key, was);
    if op.Save? && SavePicks(d, op, key).Some? {
      SaveMakes(start, ops, key);
      assert HeldSince(start, ops, n, now.value);
    } else if op.Bind? && Bindable(d, op.b) && KeyOf(op.b.spot) == key {
      assert MadeAt(start, ops, n, now.value);
      assert HeldSince(start, ops, n, now.value);
    } else if was.Some? {
      TraceExtends(start, ops, was.value, now.value);
      if op.Confirm? && KeyOf(op.spot) == key {
        assert HeldSince(start, ops, n, now.value);
      } else if now.value.suspendedBy == EMPTY {
        ForceExtends(start, ops, now.value);
      }
    }
  }

  /** At step j the account's version suspended the connection of b; nobody's version did since, and it was not confirmed. */
  ghost predicate SuspendedSince(start: Data, ops: seq<Op>, j: nat, b: Binding)
    requires j < |ops|
  {
    && SuspendsAt(start, ops, j, b.spot.vault, b.spot.connection) && ops[j].account == b.suspendedBy
    && NotSuspendedAfter(start, ops, j, b.spot)
    && forall i :: j < i < |ops| ==> !(ops[i].Confirm? && KeyOf(ops[i].spot) == KeyOf(b.spot))
  }

  ghost predicate IsSuspended(start: Data, ops: seq<Op>, b: Binding) {
    exists j :: 0 <= j < |ops| && SuspendedSince(start, ops, j, b)
  }

  lemma SuspensionExtends(start: Data, ops: seq<Op>, b: Binding)
    requires ops != [] && IsSuspended(start, ops[..|ops| - 1], b)
    requires !SuspendsAt(start, ops, |ops| - 1, b.spot.vault, b.spot.connection)
    requires !(ops[|ops| - 1].Confirm? && KeyOf(ops[|ops| - 1].spot) == KeyOf(b.spot))
    ensures IsSuspended(start, ops, b)
  {
    var n := |ops| - 1;
    var j :| 0 <= j < n && SuspendedSince(start, ops[..n], j, b);
    SuspendsEarlier(start, ops, n, j, b.spot);
    NoneSuspendsAfter(start, ops, j, b.spot);
    assert forall i :: j < i < n ==> ops[..n][i] == ops[i];
    assert SuspendedSince(start, ops, j, b);
  }

  lemma NoneSuspendsAfter(start: Data, ops: seq<Op>, j: nat, spot: Spot)
    requires ops != [] && NotSuspendedAfter(start, ops[..|ops| - 1], j, spot)
    requires !SuspendsAt(start, ops, |ops| - 1, spot.vault, spot.connection)
    ensures NotSuspendedAfter(start, ops, j, spot)
  {
    var n := |ops| - 1;
    forall i | 0 <= i < |ops| && j < i ensures !SuspendsAt(start, ops, i, spot.vault, spot.connection) {
      if i < n {
        SuspendsEarlier(start, ops, n, i, spot);
      }
    }
  }

  /**
   Nothing else suspends: over every run, a binding that is suspended was so by a
   version of that very connection of that very vault, sent by the account it
   names, and was neither confirmed nor suspended anew since.
   */
  lemma {:induction false} SuspendedMeansRepointed(start: Data, ops: seq<Op>, key: Key)
    requires start.bindings == [] && AccountsNamed(ops)
    ensures var b := Standing(Run(start, ops).bindings, key);
            b.Some? && b.value.suspendedBy != EMPTY ==> IsSuspended(start, ops, b.value)
    decreases |ops|
  {
    if ops != [] {
      var n := |ops| - 1;
      var d, op := Run(start, ops[..n]), ops[n];
      SuspendedMeansRepointed(start, ops[..n], key);
      EveryBindingIsTraced(start, ops[..n], key);
      StepRefinesLedger(d, op, key);
      RegisterIsSuspended(start, ops, key, Standing(d.bindings, key));
    }
  }

  lemma RegisterIsSuspended(start: Data, ops: seq<Op>, key: Key, was: Option<Binding>)
    requires ops != [] && AccountsNamed(ops)
    requires was.Some? ==> KeyOf(was.value.spot) == key
    requires was.Some? && was.value.suspendedBy != EMPTY ==> IsSuspended(start, ops[..|ops| - 1], was.value)
    ensures var n := |ops| - 1;
            var now := Ledger(Run(start, ops[..n]), ops[n], key, was);
            now.Some? && now.value.suspendedBy != EMPTY ==> IsSuspended(start, ops, now.value)
  {
    var n := |ops| - 1;
    var d, op := Run(start, ops[..n]), ops[n];
    var now := Ledger(d, op, key, was);
    if now.Some? && now.value.suspendedBy != EMPTY {
      if op.Save? && SavePicks(d, op, key).Some? {
        SaveMakes(start, ops, key);
      } else if SuspendsAt(start, ops, n, now.value.spot.vault, now.value.spot.connection) {
        assert SuspendedSince(start, ops, n, now.value);
      } else {
        SuspensionExtends(start, ops, now.value);
      }
    }
  }

  /** What Bind takes: a full spot and one personal credential, a key or a password, and no other. */
  lemma BindTakesOnePersonal(d: Data, b: Binding)
    ensures Bindable(d, b) <==>
              && b.spot.vault != EMPTY && b.spot.connection != EMPTY && b.spot.user != EMPTY
              && exists cred: Credential :: cred.id != EMPTY && IsPersonal(d, cred) && BindingOf(b.spot, cred) == b.(suspendedBy := EMPTY)
  {
    if Bindable(d, b) {
      var cred := if b.identity != EMPTY then OfKey(b.identity) else OfPassword(b.password);
      assert cred.id != EMPTY && IsPersonal(d, cred) && BindingOf(b.spot, cred) == b.(suspendedBy := EMPTY);
    }
  }

  /** Binding, end to end: what the member binds to a personal user is what the user then authenticates with. */
  lemma BindThenResolve(d: Data, c: Connection, u: User, cred: Credential)
    requires OnePerKey(d.bindings) && u.personal && !u.auth.ByOther?
    requires c.vault != EMPTY && c.id != EMPTY && u.id != EMPTY && cred.id != EMPTY && IsPersonal(d, cred)
    ensures var r := ResolvedAs(Step(d, Bind(BindingOf(Spot(c.vault, c.id, u.id), cred))), c, u);
            && r.error == NoError && r.user.auth == (if cred.OfKey? then ByKey else ByPassword)
            && forall named :: Names(r.user, named) <==> named == cred
  {
    var b := BindingOf(Spot(c.vault, c.id, u.id), cred);
    BindTakesOnePersonal(d, b);
    PutKeeps(d.bindings, b, KeyOf(b.spot));
  }

  /**
   The promise to the member. Over every run, whatever versions other accounts
   send and whichever user of whichever team connection is then resolved: if a
   credential of the personal vault comes out, the user is one that each member
   binds, the credential is the only one that comes out, and it comes from a
   binding under that user's key which this member made and which is in force.
   Where the member bound a spot whose ids hold no slash, the binding is of that
   very user of that connection of that vault.
   */
  lemma PersonalOnlyThroughOwnBinding(start: Data, ops: seq<Op>, c: Connection, u: User, cred: Credential)
    requires start.bindings == [] && AccountsNamed(ops) && c.vault != EMPTY
    requires var d := Run(start, ops);
             var r := ResolvedAs(d, c, u);
             r.error == NoError && Names(r.user, cred) && cred.id != EMPTY && IsPersonal(d, cred)
    ensures var d, here := Run(start, ops), Spot(c.vault, c.id, u.id);
            var b := Standing(d.bindings, KeyOf(here));
            && u.personal
            && b.Some? && b.value.suspendedBy == EMPTY
            && Traced(start, ops, b.value) && InForce(start, ops, b.value)
            && (Plain(b.value.spot) ==> b.value.spot == here)
            && cred == (if b.value.identity != EMPTY then OfKey(b.value.identity) else OfPassword(b.value.password))
            && forall other :: Names(ResolvedAs(d, c, u).user, other) ==> other == cred
  {
    var d, here := Run(start, ops), Spot(c.vault, c.id, u.id);
    EveryBindingIsTraced(start, ops, KeyOf(here));
    var b := Standing(d.bindings, KeyOf(here));
    if b.Some? && Plain(b.value.spot) {
      PlainIsAlone(b.value.spot, here);
    }
  }

  predicate DistinctUsers(c: Connection) {
    forall i, j :: 0 <= i < j < |c.users| ==> c.users[i].id != c.users[j].id
  }

  /**
   Saving does what the editor showed: the user at k is on file with its id and
   method but no inline reference, and resolving it gives the credential the
   member picked, with the method that goes with it, and no other; the one
   exception is a key filed under the empty id.
   */
  lemma AdoptThenResolve(d: Data, c: Connection, newId: Name, home: Name, k: nat, cred: Credential)
    requires OnePerKey(d.bindings) && DistinctUsers(c) && k < |c.users|
    requires var placed := Placed(d, c, newId, home); placed.vault != EMPTY && placed.id != EMPTY
    requires AdoptedFor(d, OnFile(d, c), c.users[k]) == Some(cred)
    ensures var placed := Placed(d, c, newId, home);
            var kept := AdoptedConnection(d, placed, OnFile(d, c));
            var r := ResolvedAs(Saved(d, c, newId, home), kept, kept.users[k]);
            && kept in Saved(d, c, newId, home).connections
            && kept.users[k] == User(c.users[k].id, c.users[k].auth, None, None, true)
            && (r.error == NoError <==> cred.id != EMPTY)
            && (cred.id != EMPTY ==> forall named :: Names(r.user, named) <==> named == cred)
            && (cred.id != EMPTY ==> r.user.id == c.users[k].id && r.user.auth == if cred.OfKey? then ByKey else ByPassword)
  {
    var placed := Placed(d, c, newId, home);
    var user := c.users[k];
    var spot := Spot(placed.vault, placed.id, user.id);
    assert placed.users == c.users;
    AdoptingBinds(d, placed, OnFile(d, c), |placed.users|, KeyOf(spot));
    OnlyPick(d, placed, OnFile(d, c), k, cred);
    IntroducedMeansNew(d, user, UserOf(OnFile(d, c), user.id));
    SavedHolds(d, c, newId, home);
  }

  /** With distinct users what is picked under a user's key is that user's own credential. */
  lemma OnlyPick(d: Data, c: Connection, stored: Option<Connection>, k: nat, cred: Credential)
    requires DistinctUsers(c) && k < |c.users| && AdoptedFor(d, stored, c.users[k]) == Some(cred)
    ensures var spot := Spot(c.vault, c.id, c.users[k].id);
            Picked(d, c, stored, |c.users|, KeyOf(spot)) == Some(BindingOf(spot, cred))
  {
    var spot := Spot(c.vault, c.id, c.users[k].id);
    PickedIs(d, c, stored, |c.users|, KeyOf(spot));
    assert AdoptedAt(d, c, stored, k) == Some(BindingOf(spot, cred));
    var picked := Picked(d, c, stored, |c.users|, KeyOf(spot));
    var m :| 0 <= m < |c.users| && AdoptedAt(d, c, stored, m) == picked;
    SameConnectionApart(c.vault, c.id, c.users[k].id, c.users[m].id);
  }

  lemma SavedHolds(d: Data, c: Connection, newId: Name, home: Name)
    ensures AdoptedConnection(d, Placed(d, c, newId, home), OnFile(d, c)) in Saved(d, c, newId, home).connections
  {
    var kept := AdoptedConnection(d, Placed(d, c, newId, home), OnFile(d, c));
    var after := Saved(d, c, newId, home).connections;
    var k := if OnFile(d, c).Some? then IndexOf(d.connections, c.id) else |d.connections|;
    assert after[k] == kept;
  }

  /** Everything of the user but its credential stays; that too unless it was adopted. */
  predicate UserFiled(d: Data, stored: Option<Connection>, sent: User, filed: User) {
    && filed.id == sent.id && filed.auth == sent.auth
    && if AdoptedFor(d, stored, sent).Some? then filed.personal && filed.keys == None && filed.pass == None else filed == sent
  }

  predicate ConnectionFiled(d: Data, stored: Option<Connection>, sent: Connection, filed: Connection, vault: Name, id: Name) {
    && filed.vault == vault && filed.id == id && filed.address == sent.address && |filed.users| == |sent.users|
    && forall i :: 0 <= i < |sent.users| ==>
         if vault != EMPTY && id != EMPTY then UserFiled(d, stored, sent.users[i], filed.users[i]) else filed.users[i] == sent.users[i]
  }

  /**
   What a save leaves on file: a known connection is replaced in its place and
   never changes its vault; a new one is added at the end, in the vault its
   folder allows; one with an id nobody knows goes to the personal vault. No
   other record changes.
   */
  lemma SaveFiles(d: Data, c: Connection, newId: Name, home: Name)
    ensures var before, after := d.connections, Saved(d, c, newId, home).connections;
            if c.id == EMPTY then
              |after| == |before| + 1 && after[..|before|] == before
              && ConnectionFiled(d, None, c, after[|before|], home, newId)
            else if forall i :: 0 <= i < |before| ==> before[i].id != c.id then
              |after| == |before| + 1 && after[..|before|] == before
              && ConnectionFiled(d, None, c, after[|before|], EMPTY, c.id)
            else exists k ::
              && 0 <= k < |before| && before[k].id == c.id && |after| == |before|
              && ConnectionFiled(d, Some(before[k]), c, after[k], before[k].vault, c.id)
              && forall i :: 0 <= i < |before| && i != k ==> after[i] == before[i]
  {
    var before, k := d.connections, IndexOf(d.connections, c.id);
    if c.id != EMPTY && k < |before| {
      AdoptedIsFiled(d, c, c.(vault := before[k].vault), Some(before[k]));
    } else {
      AdoptedIsFiled(d, c, Placed(d, c, newId, home), None);
    }
  }

  lemma AdoptedIsFiled(d: Data, sent: Connection, placed: Connection, stored: Option<Connection>)
    requires placed.users == sent.users && placed.address == sent.address
    ensures ConnectionFiled(d, stored, sent, AdoptedConnection(d, placed, stored), placed.vault, placed.id)
  {
  }

  /**
   A credential the record on file already names is never adopted: whatever
   reference another member planted there, saving it back leaves this member's
   bindings and that user as they were.
   */
  lemma PlantedReferenceIsNotAdopted(d: Data, stored: Option<Connection>, u: User)
    requires UserOf(stored, u.id).Some?
    requires forall cred :: Names(u, cred) ==> Names(UserOf(stored, u.id).value, cred)
    ensures AdoptedFor(d, stored, u).None? && AdoptedUser(d, stored, u) == u
  {
    IntroducedMeansNew(d, u, UserOf(stored, u.id));
  }

  // ----- the vault as the program keeps it ---------------------------------------------------------

  class Vault {
    var identities: map<Name, Name>
    var passwords: map<Name, Name>
    var bindings: seq<Binding>
    var connections: seq<Connection>

    function View(): Data
      reads this
    {
      Data(identities, passwords, bindings, connections)
    }

    method PutBinding(b: Binding)
      modifies this`bindings
      ensures bindings == Put(old(bindings), b)
    {
      var kept := KeepRest(bindings, (x: Binding) => KeyOf(x.spot) == KeyOf(b.spot));
      bindings := kept + [b.(suspendedBy := EMPTY)];
    }

    method IntroducedPersonalCredential(u: User, before: Option<User>) returns (r: Option<Credential>)
      ensures r == Introduced(View(), u, before)
    {
      match u.auth
      case ByKey =>
        if u.keys.None? {
          return None;
        }
        var ids := u.keys.value;
        for i := 0 to |ids|
          invariant Introduced(View(), u, before) == FirstNewKey(View(), u, before, ids[i..])
        {
          assert NamesKey(u, ids[i]);
          if ids[i] in identities && identities[ids[i]] == EMPTY && !(before.Some? && ids[i] in KeysOf(before.value)) {
            return Some(OfKey(ids[i]));
          }
        }
        return None;
      case ByPassword =>
        if u.pass.None? || u.pass.value == EMPTY {
          return None;
        }
        var ref := u.pass.value;
        if ref in passwords && passwords[ref] == EMPTY && !(before.Some? && before.value.pass == Some(ref)) {
          return Some(OfPassword(ref));
        }
        return None;
      case ByOther =>
        return None;
    }

    method AdoptPersonalCredentials(c: Connection, stored: Option<Connection>) returns (kept: Connection)
      modifies this`bindings
      ensures bindings == AfterAdopting(old(View()), c, stored)
      ensures kept == AdoptedConnection(old(View()), c, stored)
    {
      if c.vault == EMPTY || c.id == EMPTY {
        return c;
      }
      ghost var d := View();
      var users := c.users;
      for i := 0 to |users|
        invariant View() == d.(bindings := AdoptedBindings(d, c, stored, i))
        invariant |users| == |c.users|
        invariant forall j :: 0 <= j < i ==> users[j] == AdoptedUser(d, stored, c.users[j])
        invariant forall j :: i <= j < |users| ==> users[j] == c.users[j]
      {
        AdoptNext(d, View(), c, stored, i);
        var u := AdoptUser(c, stored, users[i]);
        users := users[i := u];
      }
      kept := c.(users := users);
    }

    /** One user of the connection: bound and made personal if the save names something new. */
    method AdoptUser(c: Connection, stored: Option<Connection>, u: User) returns (kept: User)
      modifies this`bindings
      ensures kept == AdoptedUser(old(View()), stored, u)
      ensures var found := AdoptedFor(old(View()), stored, u);
              bindings == if found.Some? then Put(old(bindings), BindingOf(Spot(c.vault, c.id, u.id), found.value)) else old(bindings)
    {
      kept := u;
      if !u.personal {
        var found := IntroducedPersonalCredential(u, UserOf(stored, u.id));
        if found.Some? {
          PutBinding(BindingOf(Spot(c.vault, c.id, u.id), found.value));
          kept := u.(keys := None, pass := None, personal := true);
        }
      }
    }

    method DoSave(c: Connection, newId: Name, home: Option<Name>)
      modifies this
      ensures View() == Step(old(View()), Save(c, newId, home))
    {
      if home.None? {
        return;
      }
      ghost var d := View();
      if c.id == EMPTY {
        var placed := c.(id := newId, vault := home.value);
        var kept := AdoptPersonalCredentials(placed, None);
        connections := connections + [kept];
        return;
      }
      for i := 0 to |connections|
        invariant View() == d
        invariant forall j :: 0 <= j < i ==> connections[j].id != c.id
      {
        if connections[i].id == c.id {
          assert IndexOf(d.connections, c.id) == i;
          var placed := c.(vault := connections[i].vault);
          var kept := AdoptPersonalCredentials(placed, Some(connections[i]));
          connections := connections[i := kept];
          return;
        }
      }
      connections := connections + [c.(vault := EMPTY)];
    }

    method DoBind(b: Binding) returns (error: Error)
      modifies this`bindings
      ensures View() == Step(old(View()), Bind(b))
      ensures error == if Bindable(old(View()), b) then NoError else BindingTarget
    {
      if b.spot.vault == EMPTY || b.spot.connection == EMPTY || b.spot.user == EMPTY
         || (b.identity == EMPTY) == (b.password == EMPTY) {
        return BindingTarget;
      }
      var owned := if b.identity != EMPTY then b.identity in identities && identities[b.identity] == EMPTY
                   else b.password in passwords && passwords[b.password] == EMPTY;
      if !owned {
        return BindingTarget;
      }
      PutBinding(b);
      return NoError;
    }

    method DoConfirm(spot: Spot) returns (error: Error)
      modifies this`bindings
      ensures View() == Step(old(View()), Confirm(spot))
      ensures error == NoError <==> exists b :: b in old(bindings) && KeyOf(b.spot) == KeyOf(spot)
      ensures error != NoError ==> error == BindingMissing
    {
      var key := KeyOf(spot);
      for i := 0 to |bindings|
        invariant bindings == old(bindings)
        invariant forall j :: 0 <= j < i ==> KeyOf(bindings[j].spot) != key
      {
        if KeyOf(bindings[i].spot) == key {
          assert FirstAt(bindings, key) == i;
          bindings := bindings[i := bindings[i].(suspendedBy := EMPTY)];
          return NoError;
        }
      }
      return BindingMissing;
    }

    method DoDelete(id: Name)
      modifies this`connections
      ensures View() == Step(old(View()), Delete(id))
    {
      connections := KeepRest(connections, (c: Connection) => c.id == id);
    }

    /** A pulled version is filed, and the bindings it would repoint are suspended, in one update. */
    method ApplyVersion(vault: Name, id: Name, version: Option<Connection>, account: Name, own: bool, buried: bool)
      modifies this`connections, this`bindings
      ensures View() == Step(old(View()), Receive(vault, id, version, account, own, buried))
    {
      var suspends := NoteRepointing(vault, id, version, own, buried);
      var rest := KeepRest(connections, (c: Connection) => IsAt(c, vault, id));
      connections := rest + if version.Some? then [version.value.(vault := vault, id := id)] else [];
      if suspends {
        SuspendBindings(vault, id, account);
      }
    }

    method NoteRepointing(vault: Name, id: Name, version: Option<Connection>, own: bool, buried: bool) returns (suspends: bool)
      ensures forall account :: suspends == Repoints(View(), Receive(vault, id, version, account, own, buried))
    {
      if vault == EMPTY || own {
        return false;
      }
      if version.None? {
        return true;
      }
      for i := 0 to |connections|
        invariant forall j :: 0 <= j < i ==> !IsAt(connections[j], vault, id)
      {
        if IsAt(connections[i], vault, id) {
          assert FirstIndex(connections, (c: Connection) => IsAt(c, vault, id)) == i;
          return connections[i].address != version.value.address;
        }
      }
      return buried;
    }

    method SuspendBindings(vault: Name, connection: Name, account: Name)
      modifies this`bindings
      ensures bindings == Suspended(old(bindings), vault, connection, account)
    {
      for i := 0 to |bindings|
        invariant |bindings| == |old(bindings)|
        invariant forall j :: 0 <= j < i ==> bindings[j] == Suspended(old(bindings), vault, connection, account)[j]
        invariant forall j :: i <= j < |bindings| ==> bindings[j] == old(bindings)[j]
      {
        if bindings[i].spot.vault == vault && bindings[i].spot.connection == connection {
          bindings := bindings[i := bindings[i].(suspendedBy := account)];
        }
      }
    }
  }

  lemma {:induction false} FirstNewKeyIgnoresBindings(d: Data, d': Data, u: User, before: Option<User>, ids: seq<Name>)
    requires d.identities == d'.identities && d.passwords == d'.passwords
    ensures FirstNewKey(d, u, before, ids) == FirstNewKey(d', u, before, ids)
    decreases |ids|
  {
    if ids != [] {
      FirstNewKeyIgnoresBindings(d, d', u, before, ids[1..]);
    }
  }

  /** Judging the next user by the list as it stands is judging it by the list before. */
  lemma AdoptNext(d: Data, now: Data, c: Connection, stored: Option<Connection>, i: nat)
    requires i < |c.users| && now == d.(bindings := AdoptedBindings(d, c, stored, i))
    ensures var u := c.users[i];
            var found := AdoptedFor(now, stored, u);
            && AdoptedUser(now, stored, u) == AdoptedUser(d, stored, u)
            && AdoptedBindings(d, c, stored, i + 1)
               == if found.Some? then Put(now.bindings, BindingOf(Spot(c.vault, c.id, u.id), found.value)) else now.bindings
  {
    IntroducedIgnoresBindings(now, d, c.users[i], UserOf(stored, c.users[i].id));
    AdoptedOneMore(d, c, stored, i + 1);
  }

  lemma IntroducedIgnoresBindings(d: Data, d': Data, u: User, before: Option<User>)
    requires d.identities == d'.identities && d.passwords == d'.passwords
    ensures Introduced(d, u, before) == Introduced(d', u, before)
  {
    FirstNewKeyIgnoresBindings(d, d', u, before, KeysOf(u));
  }
}
