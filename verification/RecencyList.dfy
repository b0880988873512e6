/** The intrusive doubly linked list under the mapped-DNS cache. */
module RecencyList {
  import opened Bytes

  class Node {
    var next: Node?
    var prev: Node?
    const name: Name
    var slot: nat

    constructor (name: Name)
      ensures this.name == name
      ensures next == null && prev == null && slot == 0
    {
      this.name := name;
      next, prev, slot := null, null, 0;
    }
  }

  function Without<T>(s: seq<T>, i: nat): (r: seq<T>)
    requires i < |s|
    ensures |r| == |s| - 1
    ensures forall k :: 0 <= k < i ==> r[k] == s[k]
    ensures forall k :: i <= k < |r| ==> r[k] == s[k + 1]
  {
    s[..i] + s[i + 1..]
  }

  /** No element twice.  Recursive, so that a proof that needs two elements apart
      names them (`DistinctAt`). */
  ghost predicate Distinct<T>(s: seq<T>) {
    s == [] || (s[0] !in s[1..] && Distinct(s[1..]))
  }

  lemma {:induction false} DistinctAt<T>(s: seq<T>, i: nat)
    requires Distinct(s) && i < |s|
    ensures forall j :: 0 <= j < |s| && j != i ==> s[j] != s[i]
  {
    assert forall j :: 1 <= j < |s| ==> s[j] == s[1..][j - 1];
    if i > 0 {
      DistinctAt(s[1..], i - 1);
    }
  }

  lemma {:induction false} DistinctWithout<T>(s: seq<T>, i: nat)
    requires Distinct(s) && i < |s|
    ensures Distinct(Without(s, i)) && s[i] !in Without(s, i)
  {
    DistinctAt(s, i);
    if i == 0 {
      assert Without(s, i) == s[1..];
    } else {
      DistinctWithout(s[1..], i - 1);
      assert Without(s, i)[1..] == Without(s[1..], i - 1);
    }
  }

  lemma {:induction false} DistinctAppend<T>(s: seq<T>, x: T)
    requires Distinct(s) && x !in s
    ensures Distinct(s + [x])
  {
    if s != [] {
      DistinctAppend(s[1..], x);
      assert (s + [x])[1..] == s[1..] + [x];
    }
  }

  function Before(nodes: seq<Node>, i: nat): Node?
    requires i < |nodes|
  {
    if i == 0 then null else nodes[i - 1]
  }

  function Behind(nodes: seq<Node>, i: nat): Node?
    requires i < |nodes|
  {
    if i == |nodes| - 1 then null else nodes[i + 1]
  }

  ghost predicate LinkAt(nodes: seq<Node>, i: nat)
    requires i < |nodes|
    reads nodes`prev, nodes`next
  {
    nodes[i].prev == Before(nodes, i) && nodes[i].next == Behind(nodes, i)
  }

  ghost predicate Linked(nodes: seq<Node>)
    reads nodes`prev, nodes`next
  {
    forall i :: 0 <= i < |nodes| ==> LinkAt(nodes, i)
  }

  /** As `LinkAt`, with the pointers at the gone-th node led past it. */
  ghost predicate LinkPast(nodes: seq<Node>, gone: nat, i: nat)
    requires gone < |nodes| && i < |nodes|
    reads nodes`prev, nodes`next
  {
    && nodes[i].prev == (if i == gone + 1 then Before(nodes, gone) else Before(nodes, i))
    && nodes[i].next == (if i + 1 == gone then Behind(nodes, gone) else Behind(nodes, i))
  }

  lemma Relinked(nodes: seq<Node>, gone: nat)
    requires gone < |nodes|
    requires forall i :: 0 <= i < |nodes| ==> LinkPast(nodes, gone, i)
    ensures Linked(Without(nodes, gone))
  {
    var r := Without(nodes, gone);
    forall k | 0 <= k < |r| ensures LinkAt(r, k) {
      assert LinkPast(nodes, gone, if k < gone then k else k + 1);
    }
  }

  class List {
    var head: Node?
    var tail: Node?
    /** The nodes from head to tail. */
    ghost var nodes: seq<Node>

    ghost predicate Valid()
      reads this, nodes`prev, nodes`next
    {
      && Distinct(nodes)
      && head == (if nodes == [] then null else nodes[0])
      && tail == (if nodes == [] then null else nodes[|nodes| - 1])
      && Linked(nodes)
    }

    constructor ()
      ensures Valid() && nodes == []
    {
      head, tail, nodes := null, null, [];
    }

    method AddTail(node: Node)
      requires Valid()
      requires node !in nodes
      modifies this, node`next, node`prev, nodes`next
      ensures Valid()
      ensures nodes == old(nodes) + [node]
    {
      if nodes != [] {
        DistinctAt(nodes, |nodes| - 1);
      }
      DistinctAppend(nodes, node);
      node.prev := tail;
      node.next := null;
      if tail != null {
        tail.next := node;
      } else {
        head := node;
      }
      tail := node;
      ghost var was := nodes;
      nodes := nodes + [node];
      forall k | 0 <= k < |nodes| ensures LinkAt(nodes, k) {
        assert k < |was| ==> old(LinkAt(was, k));
      }
    }

    method Del(node: Node, ghost i: nat)
      requires Valid()
      requires i < |nodes| && nodes[i] == node
      modifies this, nodes`next, nodes`prev
      ensures Valid()
      ensures nodes == Without(old(nodes), i)
    {
      ghost var was := nodes;
      if i > 0 {
        DistinctAt(was, i - 1);
      }
      if i + 1 < |was| {
        DistinctAt(was, i + 1);
      }
      assert LinkAt(was, i);
      if node.prev != null {
        node.prev.next := node.next;
      } else {
        head := node.next;
      }
      if node.next != null {
        node.next.prev := node.prev;
      } else {
        tail := node.prev;
      }
      forall j | 0 <= j < |was| ensures LinkPast(was, i, j) {
        assert old(LinkAt(was, j));
      }
      DistinctWithout(was, i);
      Relinked(was, i);
      nodes := Without(was, i);
    }

    /** What a touch does: the node is taken out and put back at the tail. */
    method MoveToTail(node: Node, ghost i: nat)
      requires Valid()
      requires i < |nodes| && nodes[i] == node
      modifies this, nodes`next, nodes`prev
      ensures Valid()
      ensures nodes == Without(old(nodes), i) + [node]
      ensures forall n :: n in nodes <==> n in old(nodes)
    {
      forall n | n in nodes ensures n == node || n in Without(nodes, i) {
        var k :| 0 <= k < |nodes| && nodes[k] == n;
        if k != i {
          assert Without(nodes, i)[if k < i then k else k - 1] == n;
        }
      }
      DistinctWithout(nodes, i);
      Del(node, i);
      AddTail(node);
    }
  }
}
