/** What reference counting in src/json.c guarantees its callers: exactly the values still in use exist, unchanged. */
module Sharing {
  import opened Values
  import opened Store

  /** A walk along the entries of live values. */
  ghost predicate Path(heap: Heap, path: seq<Ref>) {
    && path != []
    && forall i :: 0 <= i < |path| - 1 ==> Holds(heap, path[i], path[i + 1])
  }

  /** The callers can get to the value from a reference they hold. */
  ghost predicate InUse(heap: Heap, owed: multiset<Ref>, r: Ref) {
    exists path :: Path(heap, path) && path[0] in owed && path[|path| - 1] == r
  }

  /** Witness that no value contains itself: every entry leads to a smaller rank. */
  ghost predicate Ranked(heap: Heap, rank: seq<nat>) {
    && |rank| == |heap|
    && forall p: Ref, r: Ref :: Holds(heap, p, r) ==> r < |rank| && rank[r] < rank[p]
  }

  ghost predicate Acyclic(heap: Heap) {
    exists rank :: Ranked(heap, rank)
  }

  lemma Highest(rank: seq<nat>) returns (top: nat)
    ensures forall i :: 0 <= i < |rank| ==> rank[i] <= top
  {
    if rank == [] {
      top := 0;
    } else {
      var rest := Highest(rank[1..]);
      top := if rank[0] > rest then rank[0] else rest;
      assert forall i :: 0 < i < |rank| ==> rank[i] == rank[1..][i - 1];
    }
  }

  lemma {:induction false} LiveIsInUse(heap: Heap, owed: multiset<Ref>, rank: seq<nat>, top: nat, r: Ref)
    requires Counted(heap, owed) && Ranked(heap, rank) && Live(heap, r)
    requires forall i :: 0 <= i < |rank| ==> rank[i] <= top
    ensures InUse(heap, owed, r)
    decreases top - rank[r]
  {
    assert CountOf(heap, r) == (owed + Entries(heap))[r];
    if r in owed {
      assert Path(heap, [r]);
    } else {
      EntryHasHolder(heap, r);
      var p: Ref :| Live(heap, p) && r in Children(heap[p].body);
      assert Holds(heap, p, r);
      LiveIsInUse(heap, owed, rank, top, p);
      LongerPath(heap, owed, p, r);
    }
  }

  lemma {:induction false} PathStaysLive(heap: Heap, owed: multiset<Ref>, path: seq<Ref>, i: nat)
    requires Counted(heap, owed) && Path(heap, path) && path[0] in owed && i < |path|
    ensures Live(heap, path[i])
  {
    NothingDangles(heap, owed);
    if i > 0 {
      PathStaysLive(heap, owed, path, i - 1);
    }
  }

  /** What the callers can reach exists, whatever the graph; when no value contains itself, nothing else does. */
  lemma LiveExactlyInUse(heap: Heap, owed: multiset<Ref>, r: Ref)
    requires Counted(heap, owed)
    ensures InUse(heap, owed, r) ==> Live(heap, r)
    ensures Acyclic(heap) ==> (Live(heap, r) <==> InUse(heap, owed, r))
  {
    if InUse(heap, owed, r) {
      var path :| Path(heap, path) && path[0] in owed && path[|path| - 1] == r;
      PathStaysLive(heap, owed, path, |path| - 1);
    }
    if Acyclic(heap) && Live(heap, r) {
      var rank :| Ranked(heap, rank);
      var top := Highest(rank);
      LiveIsInUse(heap, owed, rank, top, r);
    }
  }

  /** When the callers have given everything back, the heap is empty exactly when no value contains itself. */
  lemma EmptyExactlyWhenAcyclic(heap: Heap)
    requires Counted(heap, multiset{})
    ensures Acyclic(heap) <==> forall r: Ref :: !Live(heap, r)
  {
    if Acyclic(heap) {
      forall r: Ref ensures !Live(heap, r) {
        LiveExactlyInUse(heap, multiset{}, r);
      }
    }
    if forall r: Ref :: !Live(heap, r) {
      assert Ranked(heap, seq(|heap|, i => 0));
    }
  }

  // ----- what a release frees -----

  /** What is still there is held up by what is still there. */
  lemma LiveIsKept(before: Heap, after: Heap, owed: multiset<Ref>, within: set<Ref>, r: Ref)
    requires Released(before, after, within) && Counted(after, owed) && Live(after, r)
    ensures Kept(before, owed, r)
  {
    var kept := set x: Ref | 0 <= x < |after| && Live(after, x);
    forall x | x in kept ensures Live(before, x) && (x in owed || HeldIn(before, kept, x)) {
      LiveBefore(before, after, within, x);
      if x !in owed {
        assert CountOf(after, x) == (owed + Entries(after))[x];
        EntryHasHolder(after, x);
        var p: Ref :| Live(after, p) && x in Children(after[p].body);
        LiveBefore(before, after, within, p);
        assert p in kept && Holds(before, p, x);
      }
    }
    assert Supported(before, owed, kept) && r in kept;
  }

  lemma LiveBefore(before: Heap, after: Heap, within: set<Ref>, x: Ref)
    requires Released(before, after, within) && Live(after, x)
    ensures Live(before, x) && before[x].body == after[x].body
  {
  }

  /** Exactly what a release leaves, on any graph: the values that the callers, or other values that stay, hold. */
  lemma ReleasedExactly(before: Heap, after: Heap, owed: multiset<Ref>, within: set<Ref>, r: Ref)
    requires Released(before, after, within) && Spared(before, after, owed) && Counted(after, owed)
    ensures Live(after, r) <==> Kept(before, owed, r)
  {
    if Live(after, r) { LiveIsKept(before, after, owed, within, r); }
    if Kept(before, owed, r) { Survives(before, after, owed, r, within); }
  }

  /** What the callers can reach is kept. */
  lemma InUseIsKept(heap: Heap, owed: multiset<Ref>, r: Ref)
    requires InUse(heap, owed, r) && Live(heap, r)
    ensures Kept(heap, owed, r)
  {
    var path :| Path(heap, path) && path[0] in owed && path[|path| - 1] == r;
    var kept := set x | x in path;
    forall x | x in kept ensures Live(heap, x) && (x in owed || HeldIn(heap, kept, x)) {
      var i :| 0 <= i < |path| && path[i] == x;
      if i < |path| - 1 { assert Holds(heap, path[i], path[i + 1]); }
      if i > 0 {
        assert Holds(heap, path[i - 1], path[i]) && path[i - 1] in kept;
      }
    }
    assert Supported(heap, owed, kept) && r in kept;
  }

  lemma {:induction false} KeptIsInUse(heap: Heap, owed: multiset<Ref>, kept: set<Ref>, rank: seq<nat>, top: nat,
                                       r: Ref)
    requires Supported(heap, owed, kept) && r in kept && Ranked(heap, rank)
    requires forall i :: 0 <= i < |rank| ==> rank[i] <= top
    ensures InUse(heap, owed, r)
    decreases top - rank[r]
  {
    if r in owed {
      assert Path(heap, [r]);
    } else {
      var p :| p in kept && Holds(heap, p, r);
      KeptIsInUse(heap, owed, kept, rank, top, p);
      LongerPath(heap, owed, p, r);
    }
  }

  lemma LongerPath(heap: Heap, owed: multiset<Ref>, p: Ref, r: Ref)
    requires InUse(heap, owed, p) && Holds(heap, p, r)
    ensures InUse(heap, owed, r)
  {
    var path :| Path(heap, path) && path[0] in owed && path[|path| - 1] == p;
    var longer := path + [r];
    assert forall i :: 0 <= i < |longer| - 1 ==> longer[i] == path[i];
    assert Path(heap, longer);
  }

  /**
   When `json_object_add` still has its object after deleting an older entry with the key: exactly when the object
   is kept once that entry is unlinked. It is when the callers can reach it without the entry, and if no value
   contains itself only then.
   */
  lemma ObjectAddSafeExactly(heap: Heap, after: Heap, owed: multiset<Ref>, obj: Ref, key: string, within: set<Ref>)
    requires Live(heap, obj) && Counted(after, owed)
    requires var unlinked := KeyUnlinked(heap, obj, key);
             Released(unlinked, after, within) && Spared(unlinked, after, owed)
    ensures var unlinked := KeyUnlinked(heap, obj, key);
            && (Live(after, obj) <==> Kept(unlinked, owed, obj))
            && (InUse(unlinked, owed, obj) ==> Kept(unlinked, owed, obj))
            && (Acyclic(unlinked) ==> (Kept(unlinked, owed, obj) <==> InUse(unlinked, owed, obj)))
  {
    var unlinked := KeyUnlinked(heap, obj, key);
    ReleasedExactly(unlinked, after, owed, within, obj);
    assert Live(unlinked, obj);
    if InUse(unlinked, owed, obj) { InUseIsKept(unlinked, owed, obj); }
    if Acyclic(unlinked) && Kept(unlinked, owed, obj) {
      var rank :| Ranked(unlinked, rank);
      var top := Highest(rank);
      var kept :| Supported(unlinked, owed, kept) && obj in kept;
      KeptIsInUse(unlinked, owed, kept, rank, top, obj);
    }
  }

  /** Releasing references never closes a cycle. */
  lemma ReleasingKeepsAcyclic(before: Heap, after: Heap, within: set<Ref>)
    requires Released(before, after, within) && Acyclic(before)
    ensures Acyclic(after)
  {
    var rank :| Ranked(before, rank);
    forall p: Ref, r: Ref | Holds(after, p, r) ensures r < |rank| && rank[r] < rank[p] {
      assert Live(before, p) && Holds(before, p, r);
    }
    assert Ranked(after, rank);
  }

  /** A new entry keeps the heap acyclic when the container is out of reach of the value added. */
  lemma LinkingKeepsAcyclic(heap: Heap, obj: Ref, key: string, val: Ref, within: set<Ref>)
    requires Acyclic(heap) && Live(heap, obj) && !heap[obj].body.Leaf? && Live(heap, val)
    requires Closed(heap, within) && val in within && obj !in within
    ensures Acyclic(heap[obj := heap[obj].(body := Linked(heap[obj].body, key, val))])
  {
    var rank :| Ranked(heap, rank);
    var top := Highest(rank);
    assert val < |rank| && obj < |rank|;
    var raised := seq(|heap|, i requires 0 <= i < |rank| => if i in within then rank[i] else rank[i] + top + 1);
    var after := heap[obj := heap[obj].(body := Linked(heap[obj].body, key, val))];
    forall p: Ref, r: Ref | Holds(after, p, r) ensures r < |raised| && raised[r] < raised[p] {
      if !(p == obj && r == val) {
        assert Holds(heap, p, r);
      }
    }
    assert Ranked(after, raised);
  }

  /** The JSON tree a reference stands for. */
  ghost predicate Denotes(heap: Heap, r: Ref, v: Json)
    decreases v
  {
    && Live(heap, r)
    && match heap[r].body
       case Leaf(x) => v == x && !v.Arr? && !v.Obj?
       case Array(rs) => v.Arr? && |v.elems| == |rs| && forall i :: 0 <= i < |rs| ==> Denotes(heap, rs[i], v.elems[i])
       case Object(es) =>
         && v.Obj? && |v.members| == |es|
         && forall i :: 0 <= i < |es| ==>
               v.members[i].key == es[i].key && Denotes(heap, es[i].value, v.members[i].value)
  }

  /** No entry of a live value dangles. */
  ghost predicate Sound(heap: Heap) {
    forall p: Ref, r: Ref :: Holds(heap, p, r) ==> Live(heap, r)
  }

  lemma CountedIsSound(heap: Heap, owed: multiset<Ref>)
    requires Counted(heap, owed)
    ensures Sound(heap)
  {
    NothingDangles(heap, owed);
  }

  /** Whoever can still get to a value sees the same tree after any releases. */
  lemma {:induction false} ReleasingKeepsTrees(before: Heap, after: Heap, within: set<Ref>, r: Ref, v: Json)
    requires Released(before, after, within) && Sound(after)
    requires Denotes(before, r, v) && Live(after, r)
    ensures Denotes(after, r, v)
    decreases v
  {
    match after[r].body
    case Leaf(_) =>
    case Array(rs) =>
      forall i | 0 <= i < |rs| ensures Denotes(after, rs[i], v.elems[i]) {
        assert Holds(after, r, rs[i]);
        ReleasingKeepsTrees(before, after, within, rs[i], v.elems[i]);
      }
    case Object(es) =>
      forall i | 0 <= i < |es| ensures Denotes(after, es[i].value, v.members[i].value) {
        assert Refs(es)[i] == es[i].value && Holds(after, r, es[i].value);
        ReleasingKeepsTrees(before, after, within, es[i].value, v.members[i].value);
      }
  }

  /** A change elsewhere leaves a tree alone. */
  lemma {:induction false} TreeApart(before: Heap, after: Heap, within: set<Ref>, r: Ref, v: Json)
    requires Closed(before, within) && r in within && Denotes(before, r, v)
    requires |after| == |before| && forall x :: x in within && x < |before| ==> after[x] == before[x]
    ensures Denotes(after, r, v)
    decreases v
  {
    match before[r].body
    case Leaf(_) =>
    case Array(rs) =>
      forall i | 0 <= i < |rs| ensures Denotes(after, rs[i], v.elems[i]) {
        assert rs[i] in Children(before[r].body);
        TreeApart(before, after, within, rs[i], v.elems[i]);
      }
    case Object(es) =>
      forall i | 0 <= i < |es| ensures Denotes(after, es[i].value, v.members[i].value) {
        assert Refs(es)[i] in Children(before[r].body);
        TreeApart(before, after, within, es[i].value, v.members[i].value);
      }
  }

  /** `json_array_add` appends to the array its caller sees. */
  lemma ArrayAddDenotes(heap: Heap, obj: Ref, es: seq<Json>, val: Ref, v: Json, within: set<Ref>)
    requires Denotes(heap, obj, Arr(es)) && Denotes(heap, val, v)
    requires Closed(heap, within) && obj !in within && val in within
    requires forall r :: r in Children(heap[obj].body) ==> r in within
    ensures Denotes(heap[obj := heap[obj].(body := Linked(heap[obj].body, "", val))], obj, Arr(es + [v]))
  {
    var after := heap[obj := heap[obj].(body := Linked(heap[obj].body, "", val))];
    var rs := heap[obj].body.elems;
    assert after[obj].body == Array(rs + [val]) && Live(after, obj);
    forall i | 0 <= i < |rs| ensures Denotes(after, rs[i], es[i]) {
      hide Denotes, Closed;
      assert rs[i] in Children(heap[obj].body);
      TreeApart(heap, after, within, rs[i], es[i]);
    }
    TreeApart(heap, after, within, val, v);
    AppendedShown(after, rs, es, val, v);
  }

  lemma AppendedShown(heap: Heap, rs: seq<Ref>, es: seq<Json>, val: Ref, v: Json)
    requires |rs| == |es| && (forall i :: 0 <= i < |rs| ==> Denotes(heap, rs[i], es[i])) && Denotes(heap, val, v)
    ensures forall i :: 0 <= i < |rs + [val]| ==> Denotes(heap, (rs + [val])[i], (es + [v])[i])
  {
    hide *;
    assert forall i :: 0 <= i < |rs| ==> (rs + [val])[i] == rs[i] && (es + [v])[i] == es[i];
  }

  lemma {:induction false} SameKeySamePlace(es: seq<Entry>, ms: seq<Member>, key: string)
    requires |es| == |ms| && forall i :: 0 <= i < |es| ==> es[i].key == ms[i].key
    ensures Find(es, key) == Find(ms, key)
  {
    if es != [] && es[0].key != key {
      SameKeySamePlace(es[1..], ms[1..], key);
    }
  }

  /** Entries that denote the members of an object. */
  ghost predicate Shows(heap: Heap, es: seq<Entry>, ms: seq<Member>) {
    |es| == |ms| && forall i :: 0 <= i < |es| ==> ms[i].key == es[i].key && Denotes(heap, es[i].value, ms[i].value)
  }

  lemma ShowsWithout(heap: Heap, es: seq<Entry>, ms: seq<Member>, key: string)
    requires Shows(heap, es, ms)
    ensures Shows(heap, Without(es, key), Without(ms, key))
  {
    SameKeySamePlace(es, ms, key);
    var k, us, vs := Find(ms, key), Without(ms, key), Without(es, key);
    assert k == |ms| ==> us == ms && vs == es;
    hide Denotes, Find;
    if k < |ms| {
      forall i | 0 <= i < |us| ensures us[i].key == vs[i].key && Denotes(heap, vs[i].value, us[i].value) {
        var at := if i < k then i else i + 1;
        assert us[i] == ms[at] && vs[i] == es[at];
      }
    }
  }

  lemma ShowsApart(before: Heap, after: Heap, within: set<Ref>, es: seq<Entry>, ms: seq<Member>)
    requires Closed(before, within) && Shows(before, es, ms) && forall e :: e in es ==> e.value in within
    requires |after| == |before| && forall x :: x in within && x < |before| ==> after[x] == before[x]
    ensures Shows(after, es, ms)
  {
    forall i | 0 <= i < |es| ensures Denotes(after, es[i].value, ms[i].value) {
      TreeApart(before, after, within, es[i].value, ms[i].value);
    }
  }

  lemma ClosedElsewhere(heap: Heap, obj: Ref, cell: Cell, within: set<Ref>)
    requires obj < |heap| && Closed(heap, within) && obj !in within
    ensures Closed(heap[obj := cell], within)
  {
    var after := heap[obj := cell];
    forall p: Ref, r: Ref | p in within && Live(after, p) && r in Children(after[p].body) ensures r in within {
      assert after[p] == heap[p] && Live(heap, p);
    }
  }

  /** Linking an entry whose value is denoted already. */
  lemma ShowsLinked(heap: Heap, obj: Ref, es: seq<Entry>, ms: seq<Member>, key: string, val: Ref, v: Json,
                    within: set<Ref>)
    requires Live(heap, obj) && heap[obj].body == Object(es) && Shows(heap, es, ms) && Denotes(heap, val, v)
    requires Closed(heap, within) && obj !in within && val in within && forall e :: e in es ==> e.value in within
    ensures Denotes(heap[obj := heap[obj].(body := Object(es + [Member(key, val)]))], obj, Obj(ms + [Member(key, v)]))
  {
    var after := heap[obj := heap[obj].(body := Object(es + [Member(key, val)]))];
    ShowsApart(heap, after, within, es, ms);
    TreeApart(heap, after, within, val, v);
    hide Closed;
    var fs, ns := es + [Member(key, val)], ms + [Member(key, v)];
    forall i | 0 <= i < |fs| ensures ns[i].key == fs[i].key && Denotes(after, fs[i].value, ns[i].value) {
      if i < |es| {
        assert ns[i] == ms[i] && fs[i] == es[i];
      }
    }
  }

  /** The heap between the release and the new entry has no dangling entry, because the heap after both has none. */
  lemma SoundBeforeLink(after: Heap, obj: Ref, rest: seq<Entry>, key: string, val: Ref)
    requires Sound(after) && Live(after, obj) && after[obj].body == Object(rest + [Member(key, val)])
    ensures Sound(after[obj := after[obj].(body := Object(rest))]) && Live(after, val)
    ensures val == obj || Live(after[obj := after[obj].(body := Object(rest))], val)
  {
    var released := after[obj := after[obj].(body := Object(rest))];
    var all := rest + [Member(key, val)];
    assert Refs(all)[|rest|] == val && Holds(after, obj, val);
    forall p: Ref, r: Ref | Holds(released, p, r) ensures Live(released, r) {
      if p == obj {
        var i :| 0 <= i < |rest| && Refs(rest)[i] == r;
        assert all[i] == rest[i] && Refs(all)[i] == r;
      }
      assert Holds(after, p, r);
    }
  }

  lemma KeyUnlinkedDenotes(heap: Heap, obj: Ref, ms: seq<Member>, key: string, val: Ref, v: Json, within: set<Ref>)
    requires obj != NULL && Denotes(heap, obj, Obj(ms)) && Denotes(heap, val, v)
    requires Closed(heap, within) && obj !in within && val in within
    requires forall e :: e in heap[obj].body.members ==> e.value in within
    ensures Denotes(KeyUnlinked(heap, obj, key), obj, Obj(Without(ms, key)))
    ensures Denotes(KeyUnlinked(heap, obj, key), val, v) && Closed(KeyUnlinked(heap, obj, key), within)
  {
    var es := heap[obj].body.members;
    var rest := Without(es, key);
    var unlinked := KeyUnlinked(heap, obj, key);
    assert Shows(heap, es, ms) && unlinked[obj] == heap[obj].(body := Object(rest));
    ShowsWithout(heap, es, ms, key);
    ShowsApart(heap, unlinked, within, rest, Without(ms, key));
    TreeApart(heap, unlinked, within, val, v);
    ClosedElsewhere(heap, obj, heap[obj].(body := Object(rest)), within);
  }

  /** The heap between the release and the new entry: the object shows what is left, and the value what it did. */
  lemma ReleasedDenotes(heap: Heap, after: Heap, owed: multiset<Ref>, obj: Ref, ms: seq<Member>, key: string,
                        val: Ref, v: Json, within: set<Ref>)
    requires Denotes(heap, obj, Obj(ms)) && Denotes(heap, val, v)
    requires Closed(heap, within) && obj !in within && val in within
    requires forall e :: e in heap[obj].body.members ==> e.value in within
    requires Live(after, obj) && Counted(after, owed)
    requires after[obj].body == Object(Without(heap[obj].body.members, key) + [Member(key, val)])
    requires Released(KeyUnlinked(heap, obj, key),
            after[obj := after[obj].(body := KeyUnlinked(heap, obj, key)[obj].body)], within)
    ensures obj < |KeyUnlinked(heap, obj, key)|
    ensures var released := after[obj := after[obj].(body := KeyUnlinked(heap, obj, key)[obj].body)];
            && Denotes(released, obj, Obj(Without(ms, key))) && Denotes(released, val, v) && Closed(released, within)
  {
    var es := heap[obj].body.members;
    var rest := Without(es, key);
    var unlinked := KeyUnlinked(heap, obj, key);
    var released := after[obj := after[obj].(body := unlinked[obj].body)];
    assert unlinked[obj].body == Object(rest) && released[obj] == unlinked[obj];
    hide KeyUnlinked, Without, Closed, Denotes, Counted, Released, Sound;
    CountedIsSound(after, owed);
    SoundBeforeLink(after, obj, rest, key, val);
    KeyUnlinkedDenotes(heap, obj, ms, key, val, v, within);
    ReleasedKeepsClosed(unlinked, released, within);
    ReleasingKeepsTrees(unlinked, released, within, obj, Obj(Without(ms, key)));
    ReleasingKeepsTrees(unlinked, released, within, val, v);
  }

  lemma LinkedAgain(heap: Heap, after: Heap, obj: Ref, key: string, val: Ref)
    requires obj != NULL && Live(heap, obj) && heap[obj].body.Object? && Live(after, obj)
    requires after[obj].body == Object(Without(heap[obj].body.members, key) + [Member(key, val)])
    ensures obj < |KeyUnlinked(heap, obj, key)|
    ensures KeyUnlinked(heap, obj, key)[obj].body == Object(Without(heap[obj].body.members, key))
    ensures var released := after[obj := after[obj].(body := KeyUnlinked(heap, obj, key)[obj].body)];
            && Live(released, obj) && released[obj].body == Object(Without(heap[obj].body.members, key))
            && released[obj := released[obj].(body := after[obj].body)] == after
  {
  }

  lemma FewerEntries(es: seq<Entry>, key: string, within: set<Ref>)
    requires forall e :: e in es ==> e.value in within
    ensures forall e :: e in Without(es, key) ==> e.value in within
  {
  }

  /**
   `json_object_add` through the heap: the old value unlinked, whatever it alone kept alive released, the new entry
   linked. The caller sees the map update of `With`.
   */
  lemma ObjectAddDenotes(heap: Heap, after: Heap, owed: multiset<Ref>, obj: Ref, ms: seq<Member>, key: string,
                         val: Ref, v: Json, within: set<Ref>)
    requires Denotes(heap, obj, Obj(ms)) && Denotes(heap, val, v)
    requires Closed(heap, within) && obj !in within && val in within
    requires forall e :: e in heap[obj].body.members ==> e.value in within
    requires Live(after, obj) && Counted(after, owed)
    requires after[obj].body == Object(Without(heap[obj].body.members, key) + [Member(key, val)])
    requires Released(KeyUnlinked(heap, obj, key),
            after[obj := after[obj].(body := KeyUnlinked(heap, obj, key)[obj].body)], within)
    ensures Denotes(after, obj, Obj(With(ms, key, v)))
  {
    assert obj != NULL && Live(heap, obj) && heap[obj].body.Object?;
    var rest := Without(heap[obj].body.members, key);
    hide *;
    ReleasedDenotes(heap, after, owed, obj, ms, key, val, v, within);
    LinkedAgain(heap, after, obj, key, val);
    FewerEntries(heap[obj].body.members, key, within);
    var released := after[obj := after[obj].(body := KeyUnlinked(heap, obj, key)[obj].body)];
    ObjectShows(released, obj, Without(ms, key));
    ShowsLinked(released, obj, rest, Without(ms, key), key, val, v, within);
  }

  lemma ObjectShows(heap: Heap, obj: Ref, ms: seq<Member>)
    requires Denotes(heap, obj, Obj(ms))
    ensures Live(heap, obj) && heap[obj].body.Object? && Shows(heap, heap[obj].body.members, ms)
  {
  }

  /**
   A cycle outlives its callers: an array put into itself keeps its own count at one when everything the callers
   held is given back.
   */
  method ArrayInItself(store: JsonStore) returns (r: Ref)
    requires store.Valid() && store.owed == multiset{}
    modifies store
    ensures store.Valid() && store.owed == multiset{} && Live(store.heap, r) && !Acyclic(store.heap)
  {
    r := store.Create(Array([]));
    var again := store.RefGet(r);
    var code := store.ArrayAdd(r, r);
    assert store.owed == multiset{r};
    store.RefPut(r, {r});
    EmptyExactlyWhenAcyclic(store.heap);
  }

  /** An object that holds an array under "a", while the array holds the object. */
  ghost predicate TwoInACircle(heap: Heap, o: Ref, v: Ref) {
    && NULL < o < |heap| && NULL < v < |heap| && o != v && |heap| == 3
    && Live(heap, o) && heap[o].body == Object([Member("a", v)]) && Live(heap, v) && heap[v].body == Array([o])
    && heap[NULL] == Freed
  }

  lemma NotKeptInACircle(heap: Heap, o: Ref, v: Ref)
    requires TwoInACircle(heap, o, v)
    ensures !Kept(KeyUnlinked(heap, o, "a"), multiset{}, o)
  {
    var unlinked := KeyUnlinked(heap, o, "a");
    assert Without([Member("a", v)], "a") == [];
    assert unlinked[o].body == Object([]) && unlinked[v].body == Array([o]) && !Live(unlinked, NULL);
    assert Children(unlinked[o].body) == [] && Children(unlinked[v].body) == [o];
    assert forall p: Ref :: Live(unlinked, p) ==> p == o || p == v;
    assert forall p: Ref, x: Ref :: Holds(unlinked, p, x) ==> p == v && x == o;
    hide KeyUnlinked, Children, Live, Holds;
    forall kept | Supported(unlinked, multiset{}, kept) ensures o !in kept {
      assert v in kept ==> HeldIn(unlinked, kept, v);
    }
  }

  method CloseCircle() returns (store: JsonStore, o: Ref, v: Ref)
    ensures fresh(store) && store.Valid() && store.owed == multiset{} && TwoInACircle(store.heap, o, v)
  {
    store := new JsonStore();
    o := store.Create(Object([]));
    v := store.Create(Array([]));
    assert store.heap == [Freed, Node(1, Object([])), Node(1, Array([]))] && store.owed == multiset{1, 2};
    PutIn(store, o, v);
    assert [] + [o] == [o];
    hide *;
    var added := store.ArrayAdd(v, o);
    CircleClosed(store.heap, o, v);
  }

  lemma CircleClosed(heap: Heap, o: Ref, v: Ref)
    requires o == 1 && v == 2 && |heap| == 3 && heap[NULL] == Freed
    requires Live(heap, o) && heap[o].body == Object([Member("a", v)]) && heap[v] == Node(1, Array([o]))
    ensures TwoInACircle(heap, o, v)
  {
  }

  method PutIn(store: JsonStore, o: Ref, v: Ref)
    requires store.Valid() && store.heap == [Freed, Node(1, Object([])), Node(1, Array([]))] && o == 1 && v == 2
    requires store.owed == multiset{o, v}
    modifies store
    ensures store.Valid() && store.owed == multiset{o} && |store.heap| == 3 && store.heap[NULL] == Freed
    ensures Live(store.heap, o) && store.heap[o].body == Object([Member("a", v)]) && store.heap[v] == Node(1, Array([]))
  {
    ghost var before := store.heap;
    MayAdd(before, store.owed, o);
    assert Without<Ref>([], "a") == [];
    hide Supported, Kept, Spared, Closed, HoldsReplaced, Counted, Whole, KeyUnlinked, Released, Without;
    var added := store.ObjectAdd(o, "a", v, {});
    OnlyChanged(before, store.heap, o);
  }

  lemma MayAdd(heap: Heap, owed: multiset<Ref>, o: Ref)
    requires Live(heap, o) && heap[o].body == Object([]) && o in owed
    ensures KeyUnlinked(heap, o, "a") == heap && Kept(heap, owed, o)
    ensures Closed(heap, {}) && HoldsReplaced(heap, o, "a", {})
  {
    assert Without<Ref>([], "a") == [];
    assert Supported(heap, owed, {o});
  }

  lemma OnlyChanged(before: Heap, after: Heap, o: Ref)
    requires o < |after| && o < |before| && after[o].Node? && before[o].Node?
    requires Released(before, after[o := after[o].(body := before[o].body)], {})
    ensures |after| == |before| && forall x: Ref :: x < |after| && x != o ==> after[x] == before[x]
  {
    var same := after[o := after[o].(body := before[o].body)];
    assert forall x: Ref :: x < |after| && x != o ==> same[x] == after[x];
  }

  /**
   Why `json_object_add` needs its condition. An object o holds an array under "a", the array holds o, and the
   callers have given both away: o is still there, but adding another value under "a" first deletes the array, and
   with it the last reference to o.
   */
  method AddToUnheld() returns (store: JsonStore, o: Ref, ghost before: Heap)
    ensures Live(before, o) && before[o].body.Object? && Find(before[o].body.members, "a") == 0
    ensures !Kept(KeyUnlinked(before, o, "a"), store.owed, o)
    ensures store.Valid() && !Live(store.heap, o)
  {
    var v;
    store, o, v := CloseCircle();
    before := store.heap;
    NotKeptInACircle(before, o, v);
    assert Closed(before, {o, v});
    store.ObjectDel(o, "a", {o, v});
    hide Closed, Kept, KeyUnlinked, Released, Spared;
    ReleasedExactly(KeyUnlinked(before, o, "a"), store.heap, store.owed, {o, v}, o);
  }
}
