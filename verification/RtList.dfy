/** The circular doubly linked list every wait list and ready list is made of
    (rt-thread/include/rtservice.h, lines 40-118). */
module RtList {

  class ListNode {
    var next: ListNode
    var prev: ListNode

    /** rt_list_init. */
    constructor ()
      ensures Ring([this])
    {
      next := this;
      prev := this;
    }
  }

  /** The node behind entry `i` of a ring, and the node before it. */
  function After(ring: seq<ListNode>, i: nat): ListNode
    requires i < |ring|
  {
    if i + 1 < |ring| then ring[i + 1] else ring[0]
  }

  function Before(ring: seq<ListNode>, i: nat): ListNode
    requires i < |ring|
  {
    if i > 0 then ring[i - 1] else ring[|ring| - 1]
  }

  ghost predicate Distinct(ring: seq<ListNode>) {
    forall i, j :: 0 <= i < j < |ring| ==> ring[i] != ring[j]
  }

  ghost predicate Linked(ring: seq<ListNode>, i: nat)
    requires i < |ring|
    reads ring
  {
    ring[i].next == After(ring, i) && ring[i].prev == Before(ring, i)
  }

  /** Starting from the head `ring[0]`, the links lead through `ring` and back, both ways. */
  ghost predicate Ring(ring: seq<ListNode>)
    reads ring
  {
    |ring| > 0 && Distinct(ring) && forall i: nat :: i < |ring| ==> Linked(ring, i)
  }

  function Inserted(ring: seq<ListNode>, k: nat, n: ListNode): seq<ListNode>
    requires k <= |ring|
  {
    ring[..k] + [n] + ring[k..]
  }

  lemma InsertedDistinct(ring: seq<ListNode>, k: nat, n: ListNode)
    requires Distinct(ring) && n !in ring && k <= |ring|
    ensures Distinct(Inserted(ring, k, n))
  {
    var r := Inserted(ring, k, n);
    forall i, j | 0 <= i < j < |r| ensures r[i] != r[j] {
      if i == k { assert r[j] == ring[j - 1]; } else if j == k { assert r[i] == ring[i]; }
    }
  }

  /** rt_list_insert_after entry `k`, `l`, of a ring. */
  method InsertAfter(l: ListNode, n: ListNode, ghost ring: seq<ListNode>, ghost k: nat)
    requires Ring(ring) && k < |ring| && ring[k] == l && n !in ring
    modifies l, l.next, n
    ensures Ring(Inserted(ring, k + 1, n))
  {
    ghost var r := Inserted(ring, k + 1, n);
    InsertedDistinct(ring, k + 1, n);
    assert Linked(ring, k);
    assert forall i: nat :: i < |ring| ==> Linked(ring, i);
    ghost var after := After(ring, k);
    l.next.prev := n;
    n.next := l.next;
    l.next := n;
    n.prev := l;
    forall i: nat | i < |r| ensures Linked(r, i) {
      ghost var o := if i <= k then i else if i == k + 1 then k else i - 1;
      assert old(Linked(ring, o));
      assert i != k + 1 ==> r[i] == ring[o];
    }
  }

  /** rt_list_insert_before entry `k`, `l`: before the head means behind the last. */
  method InsertBefore(l: ListNode, n: ListNode, ghost ring: seq<ListNode>, ghost k: nat)
    requires Ring(ring) && k < |ring| && ring[k] == l && n !in ring
    modifies l, l.prev, n
    ensures Ring(Inserted(ring, if k == 0 then |ring| else k, n))
  {
    ghost var at := if k == 0 then |ring| else k;
    ghost var r := Inserted(ring, at, n);
    InsertedDistinct(ring, at, n);
    assert Linked(ring, k);
    l.prev.next := n;
    n.prev := l.prev;
    l.prev := n;
    n.next := l;
    forall i: nat | i < |r| ensures Linked(r, i) {
      ghost var o := if i < at then i else i - 1;
      assert old(Linked(ring, o));
      assert i != at ==> r[i] == ring[o];
    }
  }

  function Removed(ring: seq<ListNode>, k: nat): seq<ListNode>
    requires k < |ring|
  {
    ring[..k] + ring[k + 1..]
  }

  /** rt_list_remove of entry `k`: the rest stays a ring, and the node becomes one of its own, so
      that removing a node which is in no list changes nothing. */
  method Remove(n: ListNode, ghost ring: seq<ListNode>, ghost k: nat)
    requires Ring(ring) && k < |ring| && ring[k] == n
    modifies n, n.next, n.prev
    ensures Ring([n]) && (|ring| > 1 ==> Ring(Removed(ring, k)))
  {
    ghost var r := Removed(ring, k);
    assert Linked(ring, k);
    n.next.prev := n.prev;
    n.prev.next := n.next;
    n.next := n;
    n.prev := n;
    if |ring| > 1 {
      assert Distinct(r) by { assert forall i: nat :: i < |r| ==> r[i] == ring[if i < k then i else i + 1]; }
      forall i: nat | i < |r| ensures Linked(r, i) {
        ghost var o := if i < k then i else i + 1;
        assert old(Linked(ring, o)) && r[i] == ring[o];
      }
    }
  }

  /** rt_list_isempty. */
  method IsEmpty(l: ListNode, ghost ring: seq<ListNode>) returns (empty: bool)
    requires Ring(ring) && ring[0] == l
    ensures empty <==> |ring| == 1
  {
    assert Linked(ring, 0);
    empty := l.next == l;
  }

  /** rt_list_len. */
  method Len(l: ListNode, ghost ring: seq<ListNode>) returns (len: nat)
    requires Ring(ring) && ring[0] == l
    ensures len == |ring| - 1
  {
    len := 0;
    var p := l;
    assert Linked(ring, 0);
    while p.next != l
      invariant len < |ring| && p == ring[len]
      decreases |ring| - len
    {
      assert Linked(ring, len);
      p := p.next;
      len := len + 1;
    }
    assert Linked(ring, len);
  }
}
