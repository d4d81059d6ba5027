/**
 JSON arrays and objects of src/json.c as the linked lists they are: the walks over `next` compute exactly the
 operations on a sequence of values and on an ordered association list.
 */
module Containers {
  import opened Values
  import opened LinkedList

  /** A list head together with the nodes it links. */
  class List<T(0)> {
    const head: Node<T>
    ghost var ring: seq<Node<T>>

    ghost predicate Valid()
      reads this, ring
    {
      Ring(ring) && ring[0] == head
    }

    /** What the entries carry, in list order. */
    ghost function Contents(): (s: seq<T>)
      requires Valid()
      reads this, ring
      ensures |s| == |ring[1..]|
    {
      Payloads(ring[1..])
    }

    constructor ()
      ensures Valid() && fresh(ring) && Contents() == []
    {
      head := new Node<T>.Head();
      new;
      ring := [head];
    }

    /** Allocates an entry and links it with `list_add_tail`. */
    method Append(x: T)
      requires Valid()
      modifies this, ring
      ensures Valid() && |ring| == |old(ring)| + 1 && old(ring) <= ring && fresh(ring[|old(ring)|])
      ensures Contents() == old(Contents()) + [x]
    {
      ghost var before := Contents();
      assert forall i :: 0 <= i < |before| ==> ring[1..][i] == ring[i + 1];
      hide Ring;
      var entry := new Node<T>.Entry(x);
      assert Apart(ring, entry);
      ListAddTail(entry, head, ring);
      assert (ring + [entry])[1..] == ring[1..] + [entry];
      ring := ring + [entry];
      assert forall i :: 0 <= i < |before| ==> Payloads(ring[1..])[i] == before[i];
    }

    /** Unlinks the entry at a known position with `list_del`. */
    method Unlink(p: Node<T>, ghost k: nat)
      requires Valid() && k < |Contents()| && p == ring[k + 1]
      modifies this, ring
      ensures Valid() && ring == Removed(old(ring), k + 1)
      ensures Contents() == old(Contents())[..k] + old(Contents())[k + 1..]
    {
      ghost var before := Contents();
      ghost var shorter := Removed(ring, k + 1);
      ghost var kept := before[..k] + before[k + 1..];
      assert forall i :: 0 <= i < |before| ==> ring[i + 1].obj == before[i] by {
        assert forall i :: 0 <= i < |before| ==> ring[1..][i] == ring[i + 1];
      }
      hide Ring, Payloads;
      ListDel(p, ring, k + 1);
      ring := shorter;
      PayloadsAre(shorter, kept);
    }
  }

  ghost function Payloads<T(0)>(nodes: seq<Node<T>>): (s: seq<T>)
    reads nodes
    ensures |s| == |nodes| && forall i :: 0 <= i < |s| ==> s[i] == nodes[i].obj
  {
    if nodes == [] then [] else [nodes[0].obj] + Payloads(nodes[1..])
  }

  lemma PayloadsAre<T(0)>(ring: seq<Node<T>>, s: seq<T>)
    requires |ring| == |s| + 1 && forall i :: 0 <= i < |s| ==> ring[i + 1].obj == s[i]
    ensures Payloads(ring[1..]) == s
  {
  }

  /** `json_array_length` */
  method JsonArrayLength(list: List<Json>) returns (length: int)
    requires list.Valid()
    ensures length == |list.Contents()|
  {
    length := 0;
    var p := list.head.next;
    while p != list.head
      invariant 0 <= length < |list.ring|
      invariant p == list.ring[Succ(|list.ring|, length)]
      decreases |list.ring| - length
    {
      length := length + 1;
      p := p.next;
    }
  }

  /** `json_array_get` */
  method JsonArrayGet(list: List<Json>, i: int) returns (res: Option<Json>)
    requires list.Valid()
    ensures res == if 0 <= i < |list.Contents()| then Some(list.Contents()[i]) else None
  {
    if i < 0 {
      return None;
    }
    var count := 0;
    res := None;
    var p := list.head.next;
    while p != list.head
      invariant 0 <= count < |list.ring| && count <= i
      invariant p == list.ring[Succ(|list.ring|, count)]
      decreases |list.ring| - count
    {
      if count == i {
        return Some(p.obj);
      }
      count := count + 1;
      p := p.next;
    }
  }

  /** `json_array_add` */
  method JsonArrayAdd(list: List<Json>, val: Json)
    requires list.Valid()
    modifies list, list.ring
    ensures list.Valid() && list.Contents() == old(list.Contents()) + [val]
  {
    list.Append(val);
  }

  /** `json_array_del`: the safe iteration reads the next node before the entry is unlinked. */
  method JsonArrayDel(list: List<Json>, ind: int)
    requires list.Valid()
    modifies list, list.ring
    ensures list.Valid()
    ensures 0 <= ind < |old(list.Contents())| ==>
              list.Contents() == old(list.Contents())[..ind] + old(list.Contents())[ind + 1..]
    ensures !(0 <= ind < |old(list.Contents())|) ==> list.Contents() == old(list.Contents())
  {
    if ind < 0 {
      return;
    }
    var i := 0;
    var p, n := list.head.next, list.head.next.next;
    while p != list.head
      invariant list.Valid() && list.ring == old(list.ring) && list.Contents() == old(list.Contents())
      invariant 0 <= i < |list.ring| && i <= ind
      invariant p == list.ring[Succ(|list.ring|, i)] && n == p.next
      decreases |list.ring| - i
    {
      if i == ind {
        list.Unlink(p, i);
        return;
      }
      i := i + 1;
      p := n;
      n := p.next;
    }
  }

  /** `json_object_get` */
  method JsonObjectGet(list: List<Member>, key: string) returns (res: Option<Json>)
    requires list.Valid()
    ensures res == Lookup(list.Contents(), key)
  {
    res := None;
    var p := list.head.next;
    ghost var k := 0;
    while p != list.head
      invariant 0 <= k < |list.ring| && p == list.ring[Succ(|list.ring|, k)]
      invariant forall j :: 0 <= j < k ==> list.Contents()[j].key != key
      decreases |list.ring| - k
    {
      if p.obj.key == key {
        res := Some(p.obj.value);
        return;
      }
      k := k + 1;
      p := p.next;
    }
  }

  lemma FirstWithKey(ms: seq<Member>, key: string, k: nat)
    requires k < |ms| && ms[k].key == key && forall j :: 0 <= j < k ==> ms[j].key != key
    ensures Without(ms, key) == ms[..k] + ms[k + 1..]
  {
  }

  lemma NoneWithKey(ms: seq<Member>, key: string)
    requires forall j :: 0 <= j < |ms| ==> ms[j].key != key
    ensures Without(ms, key) == ms
  {
  }

  /** `json_object_del` */
  method JsonObjectDel(list: List<Member>, key: string)
    requires list.Valid()
    modifies list, list.ring
    ensures list.Valid() && list.Contents() == Without(old(list.Contents()), key)
    ensures forall i :: 0 <= i < |list.ring| ==> list.ring[i] in old(list.ring)
  {
    ghost var ms := list.Contents();
    ghost var ring := list.ring;
    hide Distinct, Backward, Without, Find;
    var p, n := list.head.next, list.head.next.next;
    ghost var k := 0;
    while p != list.head
      invariant list.Valid() && list.ring == old(list.ring) && list.Contents() == old(list.Contents())
      invariant 0 <= k < |list.ring| && p == list.ring[Succ(|list.ring|, k)] && n == p.next
      invariant forall j :: 0 <= j < k ==> list.Contents()[j].key != key
      decreases |list.ring| - k
    {
      if p.obj.key == key {
        FirstWithKey(list.Contents(), key, k);
        list.Unlink(p, k);
        return;
      }
      k := k + 1;
      p := n;
      n := p.next;
    }
    NoneWithKey(ms, key);
  }

  /** `json_object_add` */
  method JsonObjectAdd(list: List<Member>, key: string, val: Json)
    requires list.Valid()
    modifies list, list.ring
    ensures list.Valid() && list.Contents() == With(old(list.Contents()), key, val)
  {
    JsonObjectDel(list, key);
    list.Append(Member(key, val));
  }
}
