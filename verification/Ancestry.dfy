/**
 Forests given by parent links. `up` maps each node to its parent, or to `root`,
 which is no node itself. Ancestry is the unbounded climb `Under`; a forest is a
 parent map that can be ranked by distance from the root; `Cut` is what goes
 when one node keeps only some of its children.

 The theory is about links alone, whatever the nodes carry; Forest applies it
 to discovery trees.
 */
module Ancestry {

  // ----- climbing -----------------------------------------------------------------------

  /** Following k parent links from x leads to a. */
  ghost predicate Climbs<K>(up: map<K, K>, x: K, a: K, k: nat)
    decreases k
  {
    if k == 0 then x == a else x in up && Climbs(up, up[x], a, k - 1)
  }

  ghost predicate Under<K>(up: map<K, K>, x: K, a: K) {
    exists k: nat :: Climbs(up, x, a, k)
  }

  /** a and everything below it. */
  ghost function Below<K>(up: map<K, K>, a: K): set<K> {
    set x | x in up && Under(up, x, a)
  }

  /** rank is the distance from the root, and never over the limit. */
  ghost predicate Ranked<K>(up: map<K, K>, root: K, limit: nat, rank: map<K, nat>) {
    && root !in up
    && rank.Keys == up.Keys
    && forall x {:trigger RankFits(up, root, limit, rank, x)} :: x in up ==> RankFits(up, root, limit, rank, x)
  }

  ghost predicate RankFits<K>(up: map<K, K>, root: K, limit: nat, rank: map<K, nat>, x: K)
    requires rank.Keys == up.Keys && x in up
  {
    && 1 <= rank[x] <= limit
    && if up[x] == root then rank[x] == 1 else up[x] in up && rank[x] == rank[up[x]] + 1
  }

  lemma {:induction false} ClimbOneMore<K>(up: map<K, K>, x: K, a: K, k: nat)
    requires Climbs(up, x, a, k) && a in up
    ensures Climbs(up, x, up[a], k + 1)
    decreases k
  {
    if k > 0 {
      ClimbOneMore(up, up[x], a, k - 1);
    }
  }

  /** The last link of a climb to a comes from one of a's own children. */
  lemma {:induction false} ClimbThroughChild<K>(up: map<K, K>, x: K, a: K, k: nat) returns (c: K)
    requires k > 0 && Climbs(up, x, a, k)
    ensures c in up && up[c] == a && Climbs(up, x, c, k - 1)
    decreases k
  {
    if k == 1 {
      c := x;
    } else {
      c := ClimbThroughChild(up, up[x], a, k - 1);
    }
  }

  /** Two climbs from one place run along each other. */
  lemma {:induction false} ClimbsAgree<K>(up: map<K, K>, x: K, a: K, b: K, k: nat, m: nat)
    requires Climbs(up, x, a, k) && Climbs(up, x, b, m) && k <= m
    ensures Climbs(up, a, b, m - k)
    decreases k
  {
    if k > 0 {
      ClimbsAgree(up, up[x], a, b, k - 1, m - 1);
    }
  }

  lemma {:induction false} ClimbMeasured<K>(up: map<K, K>, root: K, limit: nat, rank: map<K, nat>, x: K, a: K, k: nat)
    requires Ranked(up, root, limit, rank) && x in up && Climbs(up, x, a, k)
    ensures a in up ==> rank[x] == rank[a] + k
    ensures a == root ==> rank[x] == k
    decreases k
  {
    assert RankFits(up, root, limit, rank, x);
    if k > 0 && up[x] != root {
      ClimbMeasured(up, root, limit, rank, up[x], a, k - 1);
    }
  }

  /** Every node climbs to the root in exactly its rank. */
  lemma {:induction false} ClimbToRoot<K>(up: map<K, K>, root: K, limit: nat, rank: map<K, nat>, x: K)
    requires Ranked(up, root, limit, rank) && x in up
    ensures Climbs(up, x, root, rank[x])
    decreases rank[x]
  {
    assert RankFits(up, root, limit, rank, x);
    if up[x] != root {
      ClimbToRoot(up, root, limit, rank, up[x]);
    }
  }

  lemma UnderItself<K>(up: map<K, K>, x: K)
    ensures Under(up, x, x)
  {
    assert Climbs(up, x, x, 0);
  }

  lemma UnderViaParent<K>(up: map<K, K>, x: K, a: K)
    requires x in up
    ensures Under(up, x, a) <==> x == a || Under(up, up[x], a)
  {
    if Under(up, up[x], a) {
      var k: nat :| Climbs(up, up[x], a, k);
      assert Climbs(up, x, a, k + 1);
    }
    if Under(up, x, a) && x != a {
      var k: nat :| Climbs(up, x, a, k);
      assert Climbs(up, up[x], a, k - 1);
    }
    UnderItself(up, x);
  }

  lemma UnderViaChild<K>(up: map<K, K>, x: K, a: K)
    ensures Under(up, x, a) ==> x == a || exists c :: c in up && up[c] == a && Under(up, x, c)
    ensures forall c :: c in up && up[c] == a && Under(up, x, c) ==> Under(up, x, a)
  {
    if Under(up, x, a) && x != a {
      var k: nat :| Climbs(up, x, a, k);
      var c := ClimbThroughChild(up, x, a, k);
      assert Under(up, x, c);
    }
    forall c | c in up && up[c] == a && Under(up, x, c)
      ensures Under(up, x, a)
    {
      var k: nat :| Climbs(up, x, c, k);
      ClimbOneMore(up, x, c, k);
    }
  }

  lemma ParentIsNotBelow<K>(up: map<K, K>, root: K, limit: nat, rank: map<K, nat>, c: K)
    requires Ranked(up, root, limit, rank) && c in up
    ensures !Under(up, up[c], c)
  {
    if Under(up, up[c], c) {
      var k: nat :| Climbs(up, up[c], c, k);
      assert Climbs(up, c, c, k + 1);
      ClimbMeasured(up, root, limit, rank, c, c, k + 1);
      assert false;
    }
  }

  /** Siblings have nothing in common below them. */
  lemma SiblingsApart<K>(up: map<K, K>, root: K, limit: nat, rank: map<K, nat>, a: K, b: K, x: K)
    requires Ranked(up, root, limit, rank) && a in up && b in up && up[a] == up[b]
    requires Under(up, x, a) && Under(up, x, b)
    ensures a == b
  {
    var k: nat :| Climbs(up, x, a, k);
    var m: nat :| Climbs(up, x, b, m);
    assert RankFits(up, root, limit, rank, a) && RankFits(up, root, limit, rank, b);
    if k <= m {
      ClimbsAgree(up, x, a, b, k, m);
      ClimbMeasured(up, root, limit, rank, a, b, m - k);
    } else {
      ClimbsAgree(up, x, b, a, m, k);
      ClimbMeasured(up, root, limit, rank, b, a, k - m);
    }
  }

  // ----- what goes when a parent keeps only some children ------------------------------------

  ghost function Cut<K>(up: map<K, K>, parent: K, keep: set<K>): set<K> {
    set x | x in up && exists c :: c in up && up[c] == parent && c !in keep && Under(up, x, c)
  }

  /**
   gone can be taken out cleanly: it spares parent and keep, nothing that stays
   hangs below it, and only children of parent are cut from what stays.
   */
  ghost predicate CleanCut<K>(up: map<K, K>, parent: K, keep: set<K>, gone: set<K>) {
    && gone <= up.Keys && parent !in gone && gone !! keep
    && (forall x :: x in up && x !in gone ==> up[x] !in gone)
    && (forall x :: x in gone && up[x] !in gone ==> up[x] == parent)
    && (forall x :: x in up && up[x] == parent && x !in keep ==> x in gone)
  }

  lemma CutIsClean<K>(up: map<K, K>, root: K, limit: nat, rank: map<K, nat>, parent: K, keep: set<K>)
    requires Ranked(up, root, limit, rank)
    requires forall x :: x in keep && x in up ==> up[x] == parent
    ensures CleanCut(up, parent, keep, Cut(up, parent, keep))
  {
    var gone := Cut(up, parent, keep);
    forall x, c | c in up && up[c] == parent && c !in keep && Under(up, x, c)
      ensures x != parent && x !in keep && (x in up ==> x == c || up[x] in gone)
    {
      ParentIsNotBelow(up, root, limit, rank, c);
      if x in up {
        UnderViaParent(up, x, c);
        UnderItself(up, x);
        if x in keep {
          SiblingsApart(up, root, limit, rank, x, c, x);
        }
        if x != c {
          var k: nat :| Climbs(up, up[x], c, k);
        }
      }
    }
    forall x | x in up
      ensures x !in gone ==> up[x] !in gone
      ensures up[x] == parent && x !in keep ==> x in gone
    {
      if up[x] in gone {
        var c :| c in up && up[c] == parent && c !in keep && Under(up, up[x], c);
        UnderViaParent(up, x, c);
      }
      UnderItself(up, x);
    }
  }

  /** Only the children that are there matter: leaving out one that is not removes nothing. */
  lemma CutDependsOnOldChildren<K>(up: map<K, K>, parent: K, keep: set<K>, keep': set<K>)
    requires forall c :: c in up ==> (c in keep <==> c in keep')
    ensures Cut(up, parent, keep) == Cut(up, parent, keep')
  {
  }

  // ----- taking gone out and hanging keep below parent ------------------------------------------

  ghost predicate Regrafted<K>(up: map<K, K>, up': map<K, K>, parent: K, keep: set<K>, gone: set<K>) {
    && up'.Keys == (up.Keys - gone) + keep
    && (forall x :: x in keep ==> up'[x] == parent)
    && (forall x :: x in up && x !in gone ==> up'[x] == up[x])
  }

  lemma RegraftedIsRanked<K>(
    up: map<K, K>, up': map<K, K>, root: K, limit: nat, rank: map<K, nat>, parent: K, keep: set<K>, gone: set<K>)
    returns (rank': map<K, nat>)
    requires Ranked(up, root, limit, rank) && CleanCut(up, parent, keep, gone) && Regrafted(up, up', parent, keep, gone)
    requires root !in keep && (parent == root || parent in up)
    requires keep == {} || (if parent == root then 1 <= limit else rank[parent] < limit)
    ensures Ranked(up', root, limit, rank')
  {
    var top: nat := if parent == root then 1 else rank[parent] + 1;
    rank' := map x | x in up' :: if x in up then rank[x] else top;
    if parent != root {
      assert RankFits(up, root, limit, rank, parent);
    }
    forall x | x in up'
      ensures RankFits(up', root, limit, rank', x)
    {
      if x in up {
        assert RankFits(up, root, limit, rank, x);
        assert x !in gone;
        assert up'[x] == up[x];
      } else {
        assert x in keep;
      }
    }
  }

  /** What stays keeps its whole path to the root. */
  lemma {:induction false} PathsStand<K>(up: map<K, K>, up': map<K, K>, parent: K, keep: set<K>, gone: set<K>, x: K, a: K, k: nat)
    requires CleanCut(up, parent, keep, gone) && Regrafted(up, up', parent, keep, gone)
    requires x !in gone && Climbs(up, x, a, k)
    ensures Climbs(up', x, a, k)
    decreases k
  {
    if k > 0 {
      PathsStand(up, up', parent, keep, gone, up[x], a, k - 1);
    }
  }

  // ----- children listed per parent -----------------------------------------------------------

  /** Each node is listed under its own parent, only there, and only live nodes list children. */
  ghost predicate Listed<K>(up: map<K, K>, root: K, children: map<K, seq<K>>) {
    && (forall x {:trigger ListedAtHome(up, children, x)} :: x in up ==> ListedAtHome(up, children, x))
    && (forall p {:trigger ListsItsOwn(up, root, children, p)} :: p in children ==> ListsItsOwn(up, root, children, p))
  }

  ghost predicate ListedAtHome<K>(up: map<K, K>, children: map<K, seq<K>>, x: K)
    requires x in up
  {
    up[x] in children && x in children[up[x]]
  }

  ghost predicate ListsItsOwn<K>(up: map<K, K>, root: K, children: map<K, seq<K>>, p: K)
    requires p in children
  {
    && (p == root || p in up)
    && forall i :: 0 <= i < |children[p]| ==> children[p][i] in up && up[children[p][i]] == p
  }

  lemma RegraftedIsListed<K>(
    up: map<K, K>, up': map<K, K>, root: K, children: map<K, seq<K>>, children': map<K, seq<K>>,
    parent: K, keep: set<K>, gone: set<K>)
    requires Listed(up, root, children) && CleanCut(up, parent, keep, gone) && Regrafted(up, up', parent, keep, gone)
    requires parent == root || parent in up
    requires children'.Keys == (children.Keys - gone) + {parent}
    requires forall x :: x in children'[parent] <==> x in keep
    requires forall p :: p in children' && p != parent ==> children'[p] == children[p]
    ensures Listed(up', root, children')
  {
    forall x | x in up'
      ensures ListedAtHome(up', children', x)
    {
      if x !in keep {
        assert ListedAtHome(up, children, x) && x !in gone && up[x] != parent;
      }
    }
    forall p | p in children'
      ensures ListsItsOwn(up', root, children', p)
    {
      if p != parent {
        assert ListsItsOwn(up, root, children, p);
      }
      forall i | 0 <= i < |children'[p]|
        ensures children'[p][i] in up' && up'[children'[p][i]] == p
      {
        var x := children'[p][i];
        if p == parent {
          assert x in children'[parent];
        } else {
          assert x == children[p][i] && up[x] == p && x !in gone;
        }
      }
    }
  }

  // ----- collecting a subtree from a worklist ----------------------------------------------------

  /** Everything below one of the listed nodes. */
  ghost function Cover<K>(up: map<K, K>, ps: seq<K>): set<K> {
    set x | x in up && exists i :: 0 <= i < |ps| && Under(up, x, ps[i])
  }

  /** No node is below two of the listed ones. */
  ghost predicate Apart<K(!new)>(up: map<K, K>, ps: seq<K>) {
    forall i, j, x :: 0 <= i < j < |ps| && Under(up, x, ps[i]) ==> !Under(up, x, ps[j])
  }

  ghost predicate IsListOfKids<K>(up: map<K, K>, a: K, kids: seq<K>) {
    && (forall i :: 0 <= i < |kids| ==> kids[i] in up && up[kids[i]] == a)
    && (forall c :: c in up && up[c] == a ==> c in kids)
    && (forall i, j :: 0 <= i < j < |kids| ==> kids[i] != kids[j])
  }

  lemma KidsCover<K(!new)>(up: map<K, K>, root: K, limit: nat, rank: map<K, nat>, a: K, kids: seq<K>)
    requires Ranked(up, root, limit, rank) && a in up && IsListOfKids(up, a, kids)
    ensures Below(up, a) == {a} + Cover(up, kids) && a !in Cover(up, kids)
    ensures Apart(up, kids)
  {
    forall x | x in up
      ensures Under(up, x, a) <==> x == a || x in Cover(up, kids)
    {
      UnderViaChild(up, x, a);
      UnderItself(up, x);
      if Under(up, x, a) && x != a {
        var c :| c in up && up[c] == a && Under(up, x, c);
        var i :| 0 <= i < |kids| && kids[i] == c;
      }
    }
    forall i | 0 <= i < |kids|
      ensures !Under(up, a, kids[i])
    {
      ParentIsNotBelow(up, root, limit, rank, kids[i]);
    }
    forall i, j, x | 0 <= i < j < |kids| && Under(up, x, kids[i])
      ensures !Under(up, x, kids[j])
    {
      if Under(up, x, kids[j]) {
        SiblingsApart(up, root, limit, rank, kids[i], kids[j], x);
        assert false;
      }
    }
  }

  lemma CoverAppend<K>(up: map<K, K>, ps: seq<K>, qs: seq<K>)
    ensures Cover(up, ps + qs) == Cover(up, ps) + Cover(up, qs)
  {
    forall x | x in Cover(up, ps + qs)
      ensures x in Cover(up, ps) + Cover(up, qs)
    {
      var i :| 0 <= i < |ps + qs| && Under(up, x, (ps + qs)[i]);
      assert i < |ps| ==> Under(up, x, ps[i]);
      assert i >= |ps| ==> Under(up, x, qs[i - |ps|]);
    }
    forall x | x in Cover(up, ps)
      ensures x in Cover(up, ps + qs)
    {
      var i :| 0 <= i < |ps| && Under(up, x, ps[i]);
      assert (ps + qs)[i] == ps[i];
    }
    forall x | x in Cover(up, qs)
      ensures x in Cover(up, ps + qs)
    {
      var i :| 0 <= i < |qs| && Under(up, x, qs[i]);
      assert (ps + qs)[|ps| + i] == qs[i];
    }
  }

  lemma CoverOne<K>(up: map<K, K>, a: K)
    ensures Cover(up, [a]) == Below(up, a)
  {
    assert [a][0] == a;
  }

  /** One turn of the worklist: the popped node is accounted for, its children take its place. */
  lemma PopCovers<K(!new)>(up: map<K, K>, root: K, limit: nat, rank: map<K, nat>, rest: seq<K>, a: K, kids: seq<K>)
    requires Ranked(up, root, limit, rank) && a in up && IsListOfKids(up, a, kids)
    requires forall i :: 0 <= i < |rest| ==> rest[i] in up
    requires Apart(up, rest + [a])
    ensures Cover(up, rest + [a]) == {a} + Cover(up, rest + kids) && a !in Cover(up, rest + kids)
    ensures Apart(up, rest + kids)
  {
    KidsCover(up, root, limit, rank, a, kids);
    CoverAppend(up, rest, [a]);
    CoverAppend(up, rest, kids);
    CoverOne(up, a);
    var all := rest + [a];
    forall i, x | 0 <= i < |rest| && Under(up, x, rest[i])
      ensures !Under(up, x, a)
    {
      assert all[i] == rest[i] && all[|rest|] == a;
    }
    UnderItself(up, a);
    forall i, j, x | 0 <= i < j < |rest + kids| && Under(up, x, (rest + kids)[i])
      ensures !Under(up, x, (rest + kids)[j])
    {
      if j < |rest| {
        assert all[i] == rest[i] && all[j] == rest[j];
      } else if i < |rest| {
        var c := kids[j - |rest|];
        UnderViaChild(up, x, a);
        assert (rest + kids)[j] == c && (rest + kids)[i] == rest[i];
      } else {
        assert (rest + kids)[i] == kids[i - |rest|] && (rest + kids)[j] == kids[j - |rest|];
      }
    }
  }

  /** What the children among the first ones that are not kept take with them. */
  ghost function Dropped<K>(up: map<K, K>, kids: seq<K>, keep: set<K>): set<K> {
    if kids == [] then {}
    else
      var n := |kids| - 1;
      Dropped(up, kids[..n], keep) + if kids[n] in keep then {} else Below(up, kids[n])
  }

  lemma DroppedSnoc<K>(up: map<K, K>, kids: seq<K>, c: K, keep: set<K>)
    ensures Dropped(up, kids + [c], keep) == Dropped(up, kids, keep) + if c in keep then {} else Below(up, c)
  {
    assert (kids + [c])[..|kids|] == kids;
  }

  lemma {:induction false} InDropped<K>(up: map<K, K>, kids: seq<K>, keep: set<K>, x: K)
    ensures x in Dropped(up, kids, keep) <==> exists i :: 0 <= i < |kids| && kids[i] !in keep && x in Below(up, kids[i])
    decreases |kids|
  {
    if kids != [] {
      var n := |kids| - 1;
      InDropped(up, kids[..n], keep, x);
      assert forall i :: 0 <= i < n ==> kids[..n][i] == kids[i];
    }
  }

  lemma DroppedIsCut<K(!new)>(up: map<K, K>, parent: K, kids: seq<K>, keep: set<K>)
    requires IsListOfKids(up, parent, kids)
    ensures Dropped(up, kids, keep) == Cut(up, parent, keep)
  {
    forall x
      ensures x in Dropped(up, kids, keep) <==> x in Cut(up, parent, keep)
    {
      InDropped(up, kids, keep, x);
      if x in Cut(up, parent, keep) {
        var c :| c in up && up[c] == parent && c !in keep && Under(up, x, c);
        var i :| 0 <= i < |kids| && kids[i] == c;
      }
    }
  }

  lemma KidsApart<K>(up: map<K, K>, root: K, limit: nat, rank: map<K, nat>, parent: K, kids: seq<K>, i: nat, keep: set<K>)
    requires Ranked(up, root, limit, rank) && IsListOfKids(up, parent, kids) && i < |kids|
    ensures Dropped(up, kids[..i], keep) !! Below(up, kids[i])
  {
    forall x | x in Dropped(up, kids[..i], keep) && x in Below(up, kids[i])
      ensures false
    {
      InDropped(up, kids[..i], keep, x);
      var j :| 0 <= j < i && x in Below(up, kids[..i][j]);
      assert x in Below(up, kids[j]) && Under(up, x, kids[j]) && Under(up, x, kids[i]);
      SiblingsApart(up, root, limit, rank, kids[j], kids[i], x);
    }
  }
}
