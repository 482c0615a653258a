/**
 The key a binding is filed under: vault, connection and user joined by slashes
 (internal/domain/credential_binding.go). Nothing keeps a slash out of an id
 that another member writes, so the code compares joined keys and the model does
 too; this file says exactly when a key names one user.
 */
module CredentialKey {

  /** An identifier; the empty one stands for no value, and as a vault for the personal vault. */
  datatype Name = Name(text: string)

  const EMPTY := Name("")

  /** One user of one connection of one vault. */
  datatype Spot = Spot(vault: Name, connection: Name, user: Name)

  datatype Key = Key(text: string)

  function Joined(vault: string, connection: string, user: string): string {
    vault + "/" + connection + "/" + user
  }

  function KeyOf(spot: Spot): Key {
    Key(Joined(spot.vault.text, spot.connection.text, spot.user.text))
  }

  predicate SlashFree(s: string) { '/' !in s }

  predicate Plain(spot: Spot) {
    SlashFree(spot.vault.text) && SlashFree(spot.connection.text) && SlashFree(spot.user.text)
  }

  /** No other spot shares the key. */
  ghost predicate Alone(spot: Spot) {
    forall other :: KeyOf(other) == KeyOf(spot) ==> other == spot
  }

  // ----- plain means alone -----------------------------------------------------------------

  function Slashes(s: string): nat {
    if s == "" then 0 else Slashes(s[..|s| - 1]) + if s[|s| - 1] == '/' then 1 else 0
  }

  lemma {:induction false} SlashesJoin(a: string, b: string)
    ensures Slashes(a + b) == Slashes(a) + Slashes(b)
    decreases |b|
  {
    if b == "" {
      assert a + b == a;
    } else {
      var n := |b| - 1;
      assert (a + b)[..|a + b| - 1] == a + b[..n];
      SlashesJoin(a, b[..n]);
    }
  }

  lemma {:induction false} NoneCounted(s: string)
    ensures Slashes(s) == 0 <==> SlashFree(s)
    decreases |s|
  {
    if s != "" {
      var n := |s| - 1;
      NoneCounted(s[..n]);
      assert s == s[..n] + [s[n]];
    }
  }

  lemma SlashesJoined(vault: string, connection: string, user: string)
    ensures Slashes(Joined(vault, connection, user)) == Slashes(vault) + Slashes(connection) + Slashes(user) + 2
  {
    SlashesJoin(vault + "/" + connection + "/", user);
    SlashesJoin(vault + "/" + connection, "/");
    SlashesJoin(vault + "/", connection);
    SlashesJoin(vault, "/");
    assert Slashes("/") == 1 by { assert "/"[..0] == ""; }
  }

  lemma CutAtSlash(a: string, rest: string, a': string, rest': string)
    requires SlashFree(a) && SlashFree(a') && a + "/" + rest == a' + "/" + rest'
    ensures a == a' && rest == rest'
  {
    var s, s' := a + "/" + rest, a' + "/" + rest';
    assert s[|a|] == '/' && s'[|a'|] == '/';
    assert forall i :: 0 <= i < |a| ==> s[i] == a[i] && a[i] != '/';
    assert forall i :: 0 <= i < |a'| ==> s'[i] == a'[i] && a'[i] != '/';
    assert a == s[..|a|] && a' == s'[..|a'|];
    assert rest == s[|a| + 1..] && rest' == s'[|a'| + 1..];
  }

  /** A plain triple has two slashes in its key, so whatever shares the key is plain and cut alike. */
  lemma PlainIsAlone(spot: Spot, other: Spot)
    requires Plain(spot) && KeyOf(other) == KeyOf(spot)
    ensures other == spot
  {
    CompanyIsPlain(spot, other);
    var (v, c, u) := (spot.vault.text, spot.connection.text, spot.user.text);
    var (v', c', u') := (other.vault.text, other.connection.text, other.user.text);
    assert Joined(v, c, u) == v + "/" + (c + "/" + u) && Joined(v', c', u') == v' + "/" + (c' + "/" + u');
    CutAtSlash(v, c + "/" + u, v', c' + "/" + u');
    CutAtSlash(c, u, c', u');
  }

  lemma SlashesOfPlain(spot: Spot)
    ensures Plain(spot) <==> Slashes(KeyOf(spot).text) == 2
  {
    SlashesJoined(spot.vault.text, spot.connection.text, spot.user.text);
    NoneCounted(spot.vault.text);
    NoneCounted(spot.connection.text);
    NoneCounted(spot.user.text);
  }

  lemma CompanyIsPlain(spot: Spot, other: Spot)
    requires KeyOf(other) == KeyOf(spot)
    ensures Plain(other) <==> Plain(spot)
  {
    SlashesOfPlain(spot);
    SlashesOfPlain(other);
  }

  // ----- and a slash gives company -----------------------------------------------------------

  lemma SplitAtSlash(s: string) returns (a: string, b: string)
    requires !SlashFree(s)
    ensures s == a + "/" + b
  {
    var i :| 0 <= i < |s| && s[i] == '/';
    a, b := s[..i], s[i + 1..];
  }

  /** Another spot with the same key: the extra slash taken for one that joins. */
  lemma SlashHasCompany(spot: Spot) returns (other: Spot)
    requires !Plain(spot)
    ensures KeyOf(other) == KeyOf(spot) && other != spot
  {
    var (v, c, u) := (spot.vault.text, spot.connection.text, spot.user.text);
    if !SlashFree(v) {
      var a, b := SplitAtSlash(v);
      other := Spot(Name(a), Name(b + "/" + c), Name(u));
      assert Joined(a, b + "/" + c, u) == Joined(v, c, u);
      assert |a| < |v|;
    } else if !SlashFree(c) {
      var a, b := SplitAtSlash(c);
      other := Spot(Name(v), Name(a), Name(b + "/" + u));
      assert Joined(v, a, b + "/" + u) == Joined(v, c, u);
      assert |a| < |c|;
    } else {
      var a, b := SplitAtSlash(u);
      other := Spot(Name(v), Name(c + "/" + a), Name(b));
      assert Joined(v, c + "/" + a, b) == Joined(v, c, u);
      assert |b| < |u|;
    }
  }

  /** A spot shares its key with no other exactly when none of its three ids holds a slash. */
  lemma KeyIsAloneIffPlain(spot: Spot)
    ensures Alone(spot) <==> Plain(spot)
  {
    if Plain(spot) {
      forall other | KeyOf(other) == KeyOf(spot) ensures other == spot {
        PlainIsAlone(spot, other);
      }
    } else {
      var other := SlashHasCompany(spot);
      assert KeyOf(other) == KeyOf(spot);
    }
  }

  /** Within one connection keys tell users apart, whatever the ids hold. */
  lemma SameConnectionApart(vault: Name, connection: Name, user: Name, user': Name)
    ensures KeyOf(Spot(vault, connection, user)) == KeyOf(Spot(vault, connection, user')) <==> user == user'
  {
    var prefix := vault.text + "/" + connection.text + "/";
    assert Joined(vault.text, connection.text, user.text) == prefix + user.text;
    assert Joined(vault.text, connection.text, user'.text) == prefix + user'.text;
    assert (prefix + user.text)[|prefix|..] == user.text && (prefix + user'.text)[|prefix|..] == user'.text;
  }
}
