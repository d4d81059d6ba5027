/**
 The intrusive circular doubly linked list of src/list.h. A `list_head` is embedded in the struct it links;
 here the struct is the node, with its payload, and the list's own head is a node whose payload is not used.
 */
module LinkedList {

  class Node<T(0)> {
    var next: Node?<T>
    var prev: Node?<T>
    var obj: T

    /** `INIT_LIST_HEAD` */
    constructor Head()
      ensures next == this && prev == this
    {
      new;
      next := this;
      prev := this;
    }

    constructor Entry(payload: T)
      ensures obj == payload
    {
      obj := payload;
    }
  }

  function Succ(n: nat, i: nat): (j: nat)
    requires i < n
    ensures j < n
  {
    if i + 1 < n then i + 1 else 0
  }

  function Pred(n: nat, i: nat): (j: nat)
    requires i < n
    ensures j < n
  {
    if i > 0 then i - 1 else n - 1
  }

  /** The nodes of a list in order, the head first; following `next` from the last leads back to the head. */
  ghost predicate Ring<T(0)>(ring: seq<Node<T>>)
    reads ring
  {
    ring != [] && Distinct(ring) && Forward(ring) && Backward(ring)
  }

  ghost predicate Distinct<T(0)>(ring: seq<Node<T>>) {
    forall i, j :: 0 <= i < j < |ring| ==> ring[i] != ring[j]
  }

  ghost predicate Forward<T(0)>(ring: seq<Node<T>>)
    reads ring
  {
    forall i {:trigger ring[i].next} :: 0 <= i < |ring| ==> ring[i].next == ring[Succ(|ring|, i)]
  }

  ghost predicate Backward<T(0)>(ring: seq<Node<T>>)
    reads ring
  {
    forall i {:trigger ring[i].prev} :: 0 <= i < |ring| ==> ring[i].prev == ring[Pred(|ring|, i)]
  }

  predicate Apart<T(0)>(ring: seq<Node<T>>, node: Node<T>) {
    forall i :: 0 <= i < |ring| ==> ring[i] != node
  }

  /** The ring after a node is linked in behind position `k`. */
  ghost function Inserted<T(0)>(ring: seq<Node<T>>, k: nat, node: Node<T>): (longer: seq<Node<T>>)
    requires k < |ring|
    ensures |longer| == |ring| + 1
    ensures forall i :: 0 <= i < |longer| ==>
              longer[i] == if i <= k then ring[i] else if i == k + 1 then node else ring[i - 1]
  {
    ring[..k + 1] + [node] + ring[k + 1..]
  }

  ghost function Removed<T(0)>(ring: seq<Node<T>>, k: nat): (shorter: seq<Node<T>>)
    requires k < |ring|
    ensures |shorter| == |ring| - 1
    ensures forall i :: 0 <= i < |shorter| ==> shorter[i] == if i < k then ring[i] else ring[i + 1]
  {
    ring[..k] + ring[k + 1..]
  }

  lemma OnlyAt<T(0)>(ring: seq<Node<T>>, k: nat)
    requires Distinct(ring) && k < |ring|
    ensures forall i :: 0 <= i < |ring| && i != k ==> ring[i] != ring[k]
  {
  }

  lemma InsertedDistinct<T(0)>(ring: seq<Node<T>>, k: nat, node: Node<T>)
    requires Distinct(ring) && k < |ring| && Apart(ring, node)
    ensures Distinct(Inserted(ring, k, node))
  {
  }

  lemma RemovedDistinct<T(0)>(ring: seq<Node<T>>, k: nat)
    requires Distinct(ring) && k < |ring|
    ensures Distinct(Removed(ring, k))
  {
  }

  lemma JoinedDistinct<T(0)>(from: seq<Node<T>>, to: seq<Node<T>>)
    requires Distinct(from) && Distinct(to) && from != [] && to != []
    requires forall i, j :: 0 <= i < |from| && 0 <= j < |to| ==> from[i] != to[j]
    ensures Distinct([to[0]] + from[1..] + to[1..])
  {
    var joined, n := [to[0]] + from[1..] + to[1..], |from|;
    forall i, j | 0 <= i < j < |joined| ensures joined[i] != joined[j] {
      assert i < n ==> joined[i] == if i == 0 then to[0] else from[i];
      assert j >= n ==> joined[j] == to[j - n + 1];
    }
  }

  /** `__list_add` */
  method Link<T(0)>(node: Node<T>, prev: Node<T>, next: Node<T>, ghost ring: seq<Node<T>>, ghost k: nat)
    requires Ring(ring) && k < |ring| && prev == ring[k] && next == ring[Succ(|ring|, k)] && Apart(ring, node)
    modifies node, ring
    ensures Ring(Inserted(ring, k, node))
    ensures node.obj == old(node.obj) && forall i :: 0 <= i < |ring| ==> ring[i].obj == old(ring[i].obj)
  {
    InsertedDistinct(ring, k, node);
    OnlyAt(ring, k);
    OnlyAt(ring, Succ(|ring|, k));
    hide Distinct;
    next.prev := node;
    node.next := next;
    node.prev := prev;
    prev.next := node;
    ghost var longer := Inserted(ring, k, node);
    forall i | 0 <= i < |longer| ensures longer[i].next == longer[Succ(|longer|, i)] {
      if i <= k { assert longer[i] == ring[i]; } else if i > k + 1 { assert longer[i] == ring[i - 1]; }
    }
    forall i | 0 <= i < |longer| ensures longer[i].prev == longer[Pred(|longer|, i)] {
      if i <= k { assert longer[i] == ring[i]; } else if i > k + 1 { assert longer[i] == ring[i - 1]; }
    }
  }

  /** `list_add` puts the node first. */
  method ListAdd<T(0)>(node: Node<T>, head: Node<T>, ghost ring: seq<Node<T>>)
    requires Ring(ring) && head == ring[0] && Apart(ring, node)
    modifies node, ring
    ensures Ring([head, node] + ring[1..])
    ensures node.obj == old(node.obj) && forall i :: 0 <= i < |ring| ==> ring[i].obj == old(ring[i].obj)
  {
    Link(node, head, head.next, ring, 0);
    assert Inserted(ring, 0, node) == [head, node] + ring[1..];
  }

  /** `list_add_tail` puts the node last. */
  method ListAddTail<T(0)>(node: Node<T>, head: Node<T>, ghost ring: seq<Node<T>>)
    requires Ring(ring) && head == ring[0] && Apart(ring, node)
    modifies node, ring
    ensures Ring(ring + [node])
    ensures node.obj == old(node.obj) && forall i :: 0 <= i < |ring| ==> ring[i].obj == old(ring[i].obj)
  {
    assert Succ(|ring|, |ring| - 1) == 0;
    Link(node, head.prev, head, ring, |ring| - 1);
    assert Inserted(ring, |ring| - 1, node) == ring + [node];
  }

  /** `list_del`: the neighbours are linked to each other, the node's own links are cleared. */
  method ListDel<T(0)>(entry: Node<T>, ghost ring: seq<Node<T>>, ghost k: nat)
    requires Ring(ring) && 0 < k < |ring| && entry == ring[k]
    modifies ring
    ensures Ring(Removed(ring, k))
    ensures entry.next == null && entry.prev == null
    ensures forall i :: 0 <= i < |ring| ==> ring[i].obj == old(ring[i].obj)
  {
    RemovedDistinct(ring, k);
    OnlyAt(ring, k - 1);
    OnlyAt(ring, k);
    OnlyAt(ring, Succ(|ring|, k));
    hide Distinct;
    entry.next.prev := entry.prev;
    entry.prev.next := entry.next;
    entry.next := null;
    entry.prev := null;
    ghost var shorter := Removed(ring, k);
    forall i | 0 <= i < |shorter| ensures shorter[i].next == shorter[Succ(|shorter|, i)] {
      if i < k { assert shorter[i] == ring[i]; } else { assert shorter[i] == ring[i + 1]; }
    }
    forall i | 0 <= i < |shorter| ensures shorter[i].prev == shorter[Pred(|shorter|, i)] {
      if i < k { assert shorter[i] == ring[i]; } else { assert shorter[i] == ring[i + 1]; }
    }
  }

  /** `list_empty` */
  method ListEmpty<T(0)>(head: Node<T>, ghost ring: seq<Node<T>>) returns (empty: bool)
    requires Ring(ring) && head == ring[0]
    ensures empty <==> |ring| == 1
  {
    empty := head.next == head;
    assert ring[0].next == ring[Succ(|ring|, 0)];
  }

  /** `list_splice`: the entries of one list go in front of another's; the first list's head is left behind. */
  method ListSplice<T(0)>(list: Node<T>, head: Node<T>, ghost from: seq<Node<T>>, ghost to: seq<Node<T>>)
    requires Ring(from) && Ring(to) && list == from[0] && head == to[0]
    requires forall i, j :: 0 <= i < |from| && 0 <= j < |to| ==> from[i] != to[j]
    modifies from, to
    ensures Ring([head] + from[1..] + to[1..])
    ensures forall i :: 0 <= i < |from| ==> from[i].obj == old(from[i].obj)
    ensures forall i :: 0 <= i < |to| ==> to[i].obj == old(to[i].obj)
    ensures list.next == old(list.next) && list.prev == old(list.prev)
  {
    var empty := ListEmpty(list, from);
    if empty {
      assert [head] + from[1..] + to[1..] == to;
      return;
    }
    JoinedDistinct(from, to);
    OnlyAt(from, 1);
    OnlyAt(from, |from| - 1);
    OnlyAt(to, 0);
    OnlyAt(to, Succ(|to|, 0));
    hide Distinct;
    var first := list.next;
    var last := list.prev;
    var at := head.next;
    assert Succ(|from|, |from| - 1) == 0;
    first.prev := head;
    head.next := first;
    last.next := at;
    at.prev := last;
    ghost var joined := [head] + from[1..] + to[1..];
    ghost var n := |from|;
    assert at == to[Succ(|to|, 0)] && first == from[1] && last == from[n - 1];
    forall i | 0 <= i < |joined| ensures joined[i].next == joined[Succ(|joined|, i)] {
      if i == 0 {
        assert joined[0] == to[0];
      } else if i < n {
        assert joined[i] == from[i];
      } else {
        assert joined[i] == to[i - n + 1];
      }
    }
    forall i | 0 <= i < |joined| ensures joined[i].prev == joined[Pred(|joined|, i)] {
      if i == 0 {
        assert joined[0] == to[0];
      } else if i < n {
        assert joined[i] == from[i];
      } else {
        assert joined[i] == to[i - n + 1];
      }
    }
  }
}
