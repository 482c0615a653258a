/**
 The order siblings are kept in: Order, then Label, then ID
 (internal/usecase/discovery_tree.go). The third key makes it a strict total
 order on the nodes of one tree, so a set of siblings has exactly one sorted
 listing.
 */
module SiblingOrder {
  import opened Basics
  import opened Discovery

  /** Code point order, which is Go's byte order on UTF-8 text. */
  predicate TextLess(a: string, b: string) {
    b != [] && (a == [] || a[0] < b[0] || (a[0] == b[0] && TextLess(a[1..], b[1..])))
  }

  lemma {:induction false} TextLessTotal(a: string, b: string)
    ensures a == b || TextLess(a, b) || TextLess(b, a)
    ensures !(TextLess(a, b) && TextLess(b, a))
    ensures a == b ==> !TextLess(a, b)
    decreases |a|
  {
    if a != [] && b != [] {
      TextLessTotal(a[1..], b[1..]);
      if a[0] == b[0] && a[1..] == b[1..] {
        assert a == [a[0]] + a[1..] && b == [b[0]] + b[1..];
      }
    }
  }

  lemma {:induction false} TextLessTransitive(a: string, b: string, c: string)
    requires TextLess(a, b) && TextLess(b, c)
    ensures TextLess(a, c)
    decreases |a|
  {
    if a != [] && a[0] == b[0] == c[0] {
      TextLessTransitive(a[1..], b[1..], c[1..]);
    }
  }

  predicate Before(a: Node, b: Node) {
    if a.order != b.order then a.order < b.order
    else if a.caption != b.caption then TextLess(a.caption, b.caption)
    else TextLess(a.id, b.id)
  }

  lemma BeforeTotal(a: Node, b: Node)
    requires a.id != b.id
    ensures Before(a, b) <==> !Before(b, a)
  {
    TextLessTotal(a.caption, b.caption);
    TextLessTotal(a.id, b.id);
  }

  lemma BeforeTransitive(a: Node, b: Node, c: Node)
    requires Before(a, b) && Before(b, c)
    ensures Before(a, c)
  {
    TextLessTotal(a.caption, b.caption);
    TextLessTotal(b.caption, c.caption);
    if TextLess(a.caption, b.caption) && TextLess(b.caption, c.caption) {
      TextLessTransitive(a.caption, b.caption, c.caption);
      TextLessTotal(a.caption, c.caption);
    }
    if TextLess(a.id, b.id) && TextLess(b.id, c.id) {
      TextLessTransitive(a.id, b.id, c.id);
    }
  }

  predicate Named(nodes: map<string, Node>, ids: seq<string>) {
    forall i :: 0 <= i < |ids| ==> ids[i] in nodes && nodes[ids[i]].id == ids[i]
  }

  /** Strictly increasing, hence also without repeats. */
  predicate InOrder(nodes: map<string, Node>, ids: seq<string>) {
    && Named(nodes, ids)
    && forall i, j :: 0 <= i < j < |ids| ==> ids[i] != ids[j] && Before(nodes[ids[i]], nodes[ids[j]])
  }

  function Insert(nodes: map<string, Node>, id: string, ids: seq<string>): (r: seq<string>)
    requires Named(nodes, ids) && id in nodes && nodes[id].id == id
    ensures Named(nodes, r)
    ensures forall x :: x in r <==> x == id || x in ids
  {
    if ids == [] then [id]
    else if Before(nodes[id], nodes[ids[0]]) then [id] + ids
    else [ids[0]] + Insert(nodes, id, ids[1..])
  }

  lemma {:induction false} InsertInOrder(nodes: map<string, Node>, id: string, ids: seq<string>)
    requires InOrder(nodes, ids) && id in nodes && nodes[id].id == id && id !in ids
    ensures InOrder(nodes, Insert(nodes, id, ids))
    decreases |ids|
  {
    if ids != [] {
      if Before(nodes[id], nodes[ids[0]]) {
        forall j | 0 <= j < |ids|
          ensures Before(nodes[id], nodes[ids[j]])
        {
          if j > 0 {
            BeforeTransitive(nodes[id], nodes[ids[0]], nodes[ids[j]]);
          }
        }
      } else {
        BeforeTotal(nodes[id], nodes[ids[0]]);
        InsertInOrder(nodes, id, ids[1..]);
        var rest := Insert(nodes, id, ids[1..]);
        forall j | 0 <= j < |rest|
          ensures ids[0] != rest[j] && Before(nodes[ids[0]], nodes[rest[j]])
        {
          if rest[j] != id {
            assert rest[j] in rest && rest[j] in ids[1..];
            var m :| 0 <= m < |ids[1..]| && ids[1..][m] == rest[j];
            assert ids[m + 1] == rest[j];
          }
        }
      }
    }
  }

  /** sort.SliceStable with the sibling comparator: some sorting method, so any gives this result. */
  function SortIds(nodes: map<string, Node>, ids: seq<string>): (r: seq<string>)
    requires Named(nodes, ids)
    ensures Named(nodes, r)
    ensures forall x :: x in r <==> x in ids
  {
    if ids == [] then []
    else Insert(nodes, ids[0], SortIds(nodes, ids[1..]))
  }

  lemma {:induction false} SortedInOrder(nodes: map<string, Node>, ids: seq<string>)
    requires Named(nodes, ids) && NoDup(ids)
    ensures InOrder(nodes, SortIds(nodes, ids))
    decreases |ids|
  {
    if ids != [] {
      SortedInOrder(nodes, ids[1..]);
      InsertInOrder(nodes, ids[0], SortIds(nodes, ids[1..]));
    }
  }

  /** Two orderly listings of the same ids are the same listing. */
  lemma {:induction false} OneOrderlyListing(nodes: map<string, Node>, a: seq<string>, b: seq<string>)
    requires InOrder(nodes, a) && InOrder(nodes, b)
    requires forall x :: x in a <==> x in b
    ensures a == b
    decreases |a|
  {
    assert b != [] ==> b[0] in b;
    if a != [] {
      assert a[0] in b;
      assert b[0] in a;
      var i :| 0 <= i < |a| && a[i] == b[0];
      var j :| 0 <= j < |b| && b[j] == a[0];
      if i > 0 && j > 0 {
        BeforeTotal(nodes[a[0]], nodes[b[0]]);
        assert false;
      }
      assert a[0] == b[0];
      assert a == [a[0]] + a[1..] && b == [b[0]] + b[1..];
      assert forall x :: x in a[1..] <==> x in a && x != a[0];
      assert forall x :: x in b[1..] <==> x in b && x != b[0];
      OneOrderlyListing(nodes, a[1..], b[1..]);
    }
  }
}
