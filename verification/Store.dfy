/**
 The reference-counted store of src/json.c: values share children through counted references. Memory is a
 sequence of cells, an address is an index, and address 0 is NULL.
 */
module Store {
  import opened Values

  type Ref = nat
  const NULL: Ref := 0

  type Entry = Pair<Ref>

  datatype Body = Leaf(value: Json) | Array(elems: seq<Ref>) | Object(members: seq<Entry>)

  /** A `struct json_object`, or memory that is not one (any more). */
  datatype Cell = Freed | Node(refCount: int, body: Body)

  type Heap = seq<Cell>

  function Refs(members: seq<Entry>): (rs: seq<Ref>)
    ensures |rs| == |members| && forall i :: 0 <= i < |rs| ==> rs[i] == members[i].value
  {
    seq(|members|, i requires 0 <= i < |members| => members[i].value)
  }

  /** The references the container entries of one value hold. */
  function Children(body: Body): seq<Ref> {
    match body
    case Leaf(_) => []
    case Array(elems) => elems
    case Object(members) => Refs(members)
  }

  /** `list_del` on the entry at a position. */
  function Unlinked(body: Body, k: nat): (rest: Body)
    requires k < |Children(body)|
    ensures Children(rest) == Children(body)[..k] + Children(body)[k + 1..]
  {
    match body
    case Array(elems) => Array(elems[..k] + elems[k + 1..])
    case Object(members) => Object(members[..k] + members[k + 1..])
  }

  /** `list_add_tail` of a new entry; an array entry has no key. */
  function Linked(body: Body, key: string, val: Ref): (longer: Body)
    requires !body.Leaf?
    ensures Children(longer) == Children(body) + [val]
  {
    match body
    case Array(elems) => Array(elems + [val])
    case Object(members) => Object(members + [Member(key, val)])
  }

  predicate Live(heap: Heap, r: Ref) {
    r < |heap| && heap[r].Node? && heap[r].refCount > 0
  }

  function Held(cell: Cell): (held: multiset<Ref>) {
    if cell.Node? && cell.refCount > 0 then multiset(Children(cell.body)) else multiset{}
  }

  /** All container entries of live values, with multiplicity. */
  ghost function Entries(heap: Heap): multiset<Ref> {
    if heap == [] then multiset{} else Entries(heap[..|heap| - 1]) + Held(heap[|heap| - 1])
  }

  function CountOf(heap: Heap, r: Ref): int {
    if r < |heap| && heap[r].Node? then heap[r].refCount else 0
  }

  /** Every count is the number of references the callers hold plus the container entries pointing there. */
  ghost predicate Counted(heap: Heap, owed: multiset<Ref>) {
    && |heap| > 0 && heap[NULL] == Freed
    && forall r: Ref :: CountOf(heap, r) == (owed + Entries(heap))[r]
  }

  /** Number of live values: how much a recursive `json_ref_put` can still free. */
  ghost function Population(heap: Heap): nat {
    if heap == [] then 0 else Population(heap[..|heap| - 1]) + if Live(heap, |heap| - 1) then 1 else 0
  }

  lemma {:induction false} EntriesUpdate(heap: Heap, r: Ref, cell: Cell)
    requires r < |heap|
    ensures Entries(heap[r := cell]) + Held(heap[r]) == Entries(heap) + Held(cell)
  {
    var n := |heap| - 1;
    var changed := heap[r := cell];
    hide Held;
    if r < n {
      EntriesUpdate(heap[..n], r, cell);
      assert changed[..n] == heap[..n][r := cell];
      BothGrow(Entries(changed[..n]), Held(heap[r]), Entries(heap[..n]), Held(cell), Held(heap[n]));
    } else {
      assert changed[..n] == heap[..n];
      Swap(Entries(heap[..n]), Held(cell), Held(heap[n]));
    }
  }

  lemma BothGrow(a: multiset<Ref>, b: multiset<Ref>, c: multiset<Ref>, d: multiset<Ref>, more: multiset<Ref>)
    requires a + b == c + d
    ensures a + more + b == c + more + d
  {
    assert a + more + b == a + b + more;
    assert c + more + d == c + d + more;
  }

  lemma Swap(a: multiset<Ref>, b: multiset<Ref>, c: multiset<Ref>)
    ensures a + b + c == a + c + b
  {
  }

  lemma {:induction false} PopulationUpdate(heap: Heap, r: Ref, cell: Cell)
    requires r < |heap|
    ensures Population(heap[r := cell]) + (if Live(heap, r) then 1 else 0)
            == Population(heap) + if Live([cell], 0) then 1 else 0
  {
    var n := |heap| - 1;
    var changed := heap[r := cell];
    if r < n {
      PopulationUpdate(heap[..n], r, cell);
      assert changed[..n] == heap[..n][r := cell];
    } else {
      assert changed[..n] == heap[..n];
    }
  }

  lemma EntriesAppend(heap: Heap, cell: Cell)
    ensures Entries(heap + [cell]) == Entries(heap) + Held(cell)
  {
    assert (heap + [cell])[..|heap|] == heap;
  }

  /** One cell changes: the counts stay right when its own count and the entries it holds change in step. */
  lemma Recount(heap: Heap, owed: multiset<Ref>, r: Ref, cell: Cell, owed': multiset<Ref>)
    requires Counted(heap, owed) && NULL < r < |heap|
    requires forall x: Ref :: owed'[x] + Held(cell)[x] - (if x == r then CountOf([cell], 0) else 0)
                              == owed[x] + Held(heap[r])[x] - (if x == r then CountOf(heap, r) else 0)
    ensures Counted(heap[r := cell], owed')
  {
    hide Held, Entries, CountOf;
    var after := heap[r := cell];
    forall x: Ref ensures CountOf(after, x) == (owed' + Entries(after))[x] {
      RecountAt(heap, owed, r, cell, owed', x);
    }
  }

  lemma RecountAt(heap: Heap, owed: multiset<Ref>, r: Ref, cell: Cell, owed': multiset<Ref>, x: Ref)
    requires CountOf(heap, x) == (owed + Entries(heap))[x] && NULL < r < |heap|
    requires owed'[x] + Held(cell)[x] - (if x == r then CountOf([cell], 0) else 0)
             == owed[x] + Held(heap[r])[x] - (if x == r then CountOf(heap, r) else 0)
    ensures CountOf(heap[r := cell], x) == (owed' + Entries(heap[r := cell]))[x]
  {
    var after := heap[r := cell];
    assert CountOf(after, x) == if x == r then CountOf([cell], 0) else CountOf(heap, x);
    hide *;
    EntriesUpdate(heap, r, cell);
    At(Entries(after), Held(heap[r]), Entries(heap), Held(cell), x);
  }

  lemma At(a: multiset<Ref>, b: multiset<Ref>, c: multiset<Ref>, d: multiset<Ref>, x: Ref)
    requires a + b == c + d
    ensures a[x] + b[x] == c[x] + d[x]
  {
    assert (a + b)[x] == (c + d)[x];
  }

  lemma CountNew(heap: Heap, owed: multiset<Ref>, body: Body)
    requires Counted(heap, owed) && Children(body) == []
    ensures Counted(heap + [Node(1, body)], owed + multiset{|heap|})
  {
    EntriesAppend(heap, Node(1, body));
    var after := heap + [Node(1, body)];
    forall x: Ref ensures CountOf(after, x) == (owed + multiset{|heap|} + Entries(after))[x] {
      assert CountOf(heap, x) == (owed + Entries(heap))[x];
    }
  }

  /** An entry belongs to some live container. */
  lemma {:induction false} EntryHasHolder(heap: Heap, r: Ref)
    requires r in Entries(heap)
    ensures exists p: Ref :: Live(heap, p) && r in Children(heap[p].body)
  {
    var n := |heap| - 1;
    if r in Held(heap[n]) {
      assert Live(heap, n);
    } else {
      EntryHasHolder(heap[..n], r);
      var p: Ref :| Live(heap[..n], p) && r in Children(heap[..n][p].body);
      assert Live(heap, p) && heap[..n][p] == heap[p];
    }
  }

  lemma {:induction false} HolderHasEntry(heap: Heap, p: Ref, r: Ref)
    requires Live(heap, p) && r in Children(heap[p].body)
    ensures r in Entries(heap)
  {
    var n := |heap| - 1;
    if p < n {
      HolderHasEntry(heap[..n], p, r);
    }
  }

  /** No caller reference and no entry of a live value dangles. */
  lemma NothingDangles(heap: Heap, owed: multiset<Ref>)
    requires Counted(heap, owed)
    ensures forall r: Ref :: r in owed ==> Live(heap, r)
    ensures forall p: Ref, r: Ref :: Live(heap, p) && r in Children(heap[p].body) ==> Live(heap, r)
  {
    forall p: Ref, r: Ref | Live(heap, p) && r in Children(heap[p].body) ensures Live(heap, r) {
      HolderHasEntry(heap, p, r);
      assert CountOf(heap, r) == (owed + Entries(heap))[r];
    }
    forall r: Ref | r in owed ensures Live(heap, r) {
      assert CountOf(heap, r) == (owed + Entries(heap))[r];
    }
  }

  /** A set of addresses that no entry of a live value in it leads out of. */
  ghost predicate Closed(heap: Heap, within: set<Ref>) {
    forall p, r :: p in within && Live(heap, p) && r in Children(heap[p].body) ==> r in within
  }

  /**
   What releasing references may do: values are freed, all of them in `within`; every other value keeps its
   contents; a count drops only in `within`; values already being deleted are left alone.
   */
  ghost predicate Released(before: Heap, after: Heap, within: set<Ref>) {
    && |after| == |before|
    && forall r: Ref :: r < |before| ==>
         && (r !in within ==> after[r] == before[r])
         && (before[r] == Freed ==> after[r] == Freed)
         && (before[r].Node? && before[r].refCount <= 0 ==> after[r] == before[r])
         && (Live(before, r) ==> after[r] == Freed || (Live(after, r) && after[r].body == before[r].body))
  }

  lemma ReleasedTransitive(a: Heap, b: Heap, c: Heap, within: set<Ref>)
    requires Released(a, b, within) && Released(b, c, within)
    ensures Released(a, c, within)
  {
  }

  lemma ReleasedNothing(heap: Heap, within: set<Ref>)
    ensures Released(heap, heap, within)
  {
  }

  lemma HeadAndTail(children: seq<Ref>)
    requires children != []
    ensures children[0] in children && multiset(children) == multiset{children[0]} + multiset(children[1..])
  {
    assert children == [children[0]] + children[1..];
  }

  lemma OwedTail(rest: multiset<Ref>, children: seq<Ref>)
    requires children != []
    ensures rest + multiset(children) - multiset{children[0]} == rest + multiset(children[1..])
  {
    HeadAndTail(children);
  }

  /** What becomes of a value whose count is zero changes no count. */
  lemma ShrinkDying(heap: Heap, owed: multiset<Ref>, obj: Ref, cell: Cell, within: set<Ref>)
    requires Counted(heap, owed) && Closed(heap, within) && NULL < obj < |heap|
    requires heap[obj].Node? && heap[obj].refCount == 0
    requires cell == Freed || (cell.Node? && cell.refCount == 0)
    ensures Counted(heap[obj := cell], owed) && Closed(heap[obj := cell], within)
    ensures Population(heap[obj := cell]) == Population(heap)
    ensures heap[obj := cell][obj := Freed] == heap[obj := Freed]
  {
    Recount(heap, owed, obj, cell, owed);
    PopulationUpdate(heap, obj, cell);
    ClosedUpdate(heap, obj, cell, within);
  }

  /** Releases made while one value is being deleted, seen from outside where that value is gone already. */
  lemma ReleasedAround(a: Heap, b: Heap, c: Heap, obj: Ref, within: set<Ref>)
    requires obj < |a| == |b| && b[obj].Node? && b[obj].refCount <= 0
    requires Released(a[obj := Freed], b[obj := Freed], within) && Released(b, c, within)
    ensures |c| == |b| && c[obj] == b[obj]
    ensures Released(a[obj := Freed], c[obj := Freed], within)
  {
    ReleasedTransitive(a[obj := Freed], b[obj := Freed], c[obj := Freed], within);
  }

  lemma ReleasedKeepsClosed(a: Heap, b: Heap, within: set<Ref>)
    requires Released(a, b, within) && Closed(a, within)
    ensures Closed(b, within)
  {
    forall p, r | p in within && Live(b, p) && r in Children(b[p].body) ensures r in within {
      assert Live(a, p);
    }
  }

  // ----- what must stay -----

  predicate Holds(heap: Heap, p: Ref, r: Ref) {
    Live(heap, p) && r in Children(heap[p].body)
  }

  predicate HeldIn(heap: Heap, kept: set<Ref>, r: Ref) {
    exists p :: p in kept && Holds(heap, p, r)
  }

  /** Live values that hold each other up: each is held by the callers or by another of them. */
  ghost predicate Supported(heap: Heap, owed: multiset<Ref>, kept: set<Ref>) {
    forall x :: x in kept ==> Live(heap, x) && (x in owed || HeldIn(heap, kept, x))
  }

  /** The value belongs to such a set. */
  ghost predicate Kept(heap: Heap, owed: multiset<Ref>, r: Ref) {
    exists kept :: Supported(heap, owed, kept) && r in kept
  }

  ghost predicate AllLive(heap: Heap, kept: set<Ref>) {
    forall x :: x in kept ==> Live(heap, x)
  }

  /** Nothing that holds itself up, given the references the callers keep, has been freed. */
  ghost predicate Spared(before: Heap, after: Heap, owed: multiset<Ref>) {
    forall kept :: Supported(before, owed, kept) ==> AllLive(after, kept)
  }

  lemma SparedSame(before: Heap, after: Heap, owed: multiset<Ref>)
    requires |after| == |before| && forall x :: Live(before, x) ==> Live(after, x)
    ensures Spared(before, after, owed)
  {
  }

  /** Supported values that are still live still support each other. */
  lemma SupportedLater(before: Heap, after: Heap, owed: multiset<Ref>, more: multiset<Ref>, kept: set<Ref>)
    requires Supported(before, owed, kept) && AllLive(after, kept) && owed <= more && |after| == |before|
    requires forall x :: x in kept ==> after[x].body == before[x].body
    ensures Supported(after, more, kept)
  {
    forall x | x in kept ensures x in more || HeldIn(after, kept, x) {
      if x !in owed {
        var p :| p in kept && Holds(before, p, x);
        assert Holds(after, p, x);
      }
    }
  }

  /** The last reference is given back: what remains supported does not need the value, nor what its deletion frees. */
  lemma SparedByDelete(heap: Heap, owed: multiset<Ref>, obj: Ref, after: Heap)
    requires Counted(heap, owed) && obj in owed && Live(heap, obj) && heap[obj].refCount == 1
    requires Spared(heap[obj := heap[obj].(refCount := 0)], after, owed - multiset{obj})
    ensures Spared(heap, after, owed - multiset{obj})
  {
    var rest, dying := owed - multiset{obj}, heap[obj := heap[obj].(refCount := 0)];
    forall kept | Supported(heap, rest, kept) ensures AllLive(after, kept) {
      if obj in kept {
        assert CountOf(heap, obj) == (owed + Entries(heap))[obj];
        if obj !in rest {
          var p :| p in kept && Holds(heap, p, obj);
          HolderHasEntry(heap, p, obj);
        }
        assert false;
      }
      SupportedLater(heap, dying, rest, rest, kept);
    }
  }

  /** One release on the way through a deletion. */
  lemma SparedStep(was: Heap, heap: Heap, mid: Heap, obj: Ref, cell: Cell, rest: multiset<Ref>, owed: multiset<Ref>,
                   within: set<Ref>)
    requires obj < |was| && |was| == |heap| == |mid| && was[obj].Node? && was[obj].refCount == 0
    requires Released(was[obj := Freed], heap[obj := Freed], within) && rest <= owed
    requires Spared(was, heap, rest) && Spared(heap, mid, owed)
    ensures Spared(was, mid[obj := cell], rest)
  {
    forall kept | Supported(was, rest, kept) ensures AllLive(mid[obj := cell], kept) {
      assert AllLive(heap, kept);
      forall x | x in kept ensures heap[x].body == was[x].body {
        assert Live(was[obj := Freed], x) && was[obj := Freed][x] == was[x] && heap[obj := Freed][x] == heap[x];
      }
      SupportedLater(was, heap, rest, owed, kept);
      assert AllLive(mid, kept);
    }
  }

  // ----- deletion -----

  /** A value is being deleted: the callers owe `rest` and, through the deletion, the entries not yet unlinked. */
  ghost predicate Deleting(was: Heap, heap: Heap, owed: multiset<Ref>, obj: Ref, rest: multiset<Ref>,
                           within: set<Ref>) {
    && Counted(heap, owed) && Closed(heap, within)
    && NULL < obj < |heap| == |was| && heap[obj].Node? && heap[obj].refCount == 0
    && owed == rest + multiset(Children(heap[obj].body))
    && (forall r :: r in Children(heap[obj].body) ==> r in within)
    && Released(was[obj := Freed], heap[obj := Freed], within) && was[obj].Node? && was[obj].refCount == 0
    && Spared(was, heap, rest)
    && Population(heap) <= Population(was)
  }

  lemma DeletingStarts(heap: Heap, owed: multiset<Ref>, obj: Ref, rest: multiset<Ref>, within: set<Ref>)
    requires Counted(heap, owed) && Closed(heap, within) && obj < |heap| && heap[obj].Node? && heap[obj].refCount == 0
    requires owed == rest + multiset(Children(heap[obj].body))
    requires forall r :: r in Children(heap[obj].body) ==> r in within
    ensures Deleting(heap, heap, owed, obj, rest, within)
  {
    assert heap[NULL] == Freed;
    ReleasedNothing(heap[obj := Freed], within);
    SparedSame(heap, heap, rest);
  }

  lemma DeletingNext(was: Heap, heap: Heap, owed: multiset<Ref>, obj: Ref, rest: multiset<Ref>, within: set<Ref>)
    requires obj < |heap| && Deleting(was, heap, owed, obj, rest, within) && Children(heap[obj].body) != []
    ensures var e := Children(heap[obj].body)[0]; e != NULL && e in owed && e in within
    ensures Counted(heap, owed) && Closed(heap, within) && Population(heap) <= Population(was)
  {
    HeadAndTail(Children(heap[obj].body));
    OwedIsLive(heap, owed, Children(heap[obj].body)[0]);
  }

  lemma DeletingStep(was: Heap, heap: Heap, owed: multiset<Ref>, mid: Heap, owed': multiset<Ref>, obj: Ref,
                     rest: multiset<Ref>, within: set<Ref>)
    requires obj < |heap| && Deleting(was, heap, owed, obj, rest, within) && Children(heap[obj].body) != []
    requires Released(heap, mid, within) && Population(mid) <= Population(heap)
    requires Counted(mid, owed') && owed' == owed - multiset{Children(heap[obj].body)[0]} && Spared(heap, mid, owed')
    ensures |mid| == |heap| && mid[obj] == heap[obj]
    ensures Deleting(was, mid[obj := Node(0, Unlinked(mid[obj].body, 0))], owed', obj, rest, within)
  {
    var children := Children(heap[obj].body);
    HeadAndTail(children);
    OwedTail(rest, children);
    ReleasedAround(was, heap, mid, obj, within);
    ReleasedKeepsClosed(heap, mid, within);
    var cell := Node(0, Unlinked(mid[obj].body, 0));
    ShrinkDying(mid, owed', obj, cell, within);
    SparedStep(was, heap, mid, obj, cell, rest, owed', within);
    hide Counted, Closed, Released, Population, Spared;
    assert Children(cell.body) == children[1..];
    assert forall r :: r in children[1..] ==> r in children;
  }

  lemma DeletingEnds(was: Heap, heap: Heap, owed: multiset<Ref>, obj: Ref, rest: multiset<Ref>, within: set<Ref>)
    requires obj < |heap| && Deleting(was, heap, owed, obj, rest, within) && Children(heap[obj].body) == []
    ensures |heap| == |was| && owed == rest
    ensures Counted(heap[obj := Freed], owed)
    ensures Released(was[obj := Freed], heap[obj := Freed], within) && Spared(was, heap[obj := Freed], rest)
    ensures Population(heap[obj := Freed]) <= Population(was)
  {
    ShrinkDying(heap, owed, obj, Freed, within);
    SparedSame(heap, heap, rest);
    SparedStep(was, heap, heap, obj, Freed, rest, rest, within);
  }

  /** No value is half deleted. */
  ghost predicate Whole(heap: Heap) {
    forall r: Ref :: r < |heap| && heap[r].Node? ==> heap[r].refCount > 0
  }

  lemma ReleasedWhole(a: Heap, b: Heap, within: set<Ref>)
    requires Released(a, b, within) && Whole(a)
    ensures Whole(b)
  {
    forall r: Ref | r < |b| && b[r].Node? ensures b[r].refCount > 0 {
      assert a[r].Node?;
      assert Live(a, r);
    }
  }

  /** One reference less, and the value stays. */
  lemma Dropped(heap: Heap, obj: Ref, cell: Cell, within: set<Ref>)
    requires Live(heap, obj) && obj in within
    requires cell.Node? && cell.refCount > 0 && cell.body == heap[obj].body
    ensures Released(heap, heap[obj := cell], within)
  {
  }

  lemma OtherPut(heap: Heap, owed: multiset<Ref>, obj: Ref, within: set<Ref>)
    requires Counted(heap, owed) && obj in owed && Live(heap, obj) && NULL < obj && heap[obj].refCount > 1
            && obj in within
    ensures var after, rest := heap[obj := heap[obj].(refCount := heap[obj].refCount - 1)], owed - multiset{obj};
            && Counted(after, rest) && Released(heap, after, within) && Spared(heap, after, rest)
            && Population(after) == Population(heap)
  {
    var cell, rest := heap[obj].(refCount := heap[obj].refCount - 1), owed - multiset{obj};
    Dropped(heap, obj, cell, within);
    SparedSame(heap, heap[obj := cell], rest);
    PopulationUpdate(heap, obj, cell);
    hide Counted, Children, Population, Released, Spared;
    Recount(heap, owed, obj, cell, rest);
  }

  lemma LastPut(heap: Heap, owed: multiset<Ref>, obj: Ref, within: set<Ref>)
    requires Counted(heap, owed) && obj in owed && Live(heap, obj) && NULL < obj && heap[obj].refCount == 1
    requires obj in within && Closed(heap, within)
    ensures var after := heap[obj := heap[obj].(refCount := 0)];
            && Counted(after, owed - multiset{obj} + multiset(Children(heap[obj].body)))
            && Closed(after, within) && Population(after) + 1 == Population(heap)
    ensures forall r :: r in Children(heap[obj].body) ==> r in within
  {
    var cell := heap[obj].(refCount := 0);
    ClosedUpdate(heap, obj, cell, within);
    ChildrenWithin(heap, obj, within);
    PopulationUpdate(heap, obj, cell);
    hide Counted, Children, Population, Closed;
    Recount(heap, owed, obj, cell, owed - multiset{obj} + multiset(Children(cell.body)));
  }

  /** The last reference gone: the value, and what its deletion releases. */
  lemma Deleted(heap: Heap, obj: Ref, cell: Cell, after: Heap, within: set<Ref>)
    requires Live(heap, obj) && obj in within
    requires Released(heap[obj := cell][obj := Freed], after, within) && after[obj] == Freed
    ensures Released(heap, after, within)
  {
    assert heap[obj := cell][obj := Freed] == heap[obj := Freed];
    ReleasedTransitive(heap, heap[obj := Freed], after, within);
  }

  lemma ClosedUpdate(heap: Heap, obj: Ref, cell: Cell, within: set<Ref>)
    requires Closed(heap, within) && obj < |heap| && !Live([cell], 0)
    ensures Closed(heap[obj := cell], within)
  {
    var after := heap[obj := cell];
    forall p: Ref, r: Ref | p in within && Live(after, p) && r in Children(after[p].body) ensures r in within {
      assert p != obj;
      assert Live(heap, p);
    }
  }

  lemma ChildrenWithin(heap: Heap, obj: Ref, within: set<Ref>)
    requires Closed(heap, within) && Live(heap, obj) && obj in within
    ensures forall r :: r in Children(heap[obj].body) ==> r in within
  {
  }

  lemma OwedIsLive(heap: Heap, owed: multiset<Ref>, obj: Ref)
    requires Counted(heap, owed) && obj in owed
    ensures NULL < obj && Live(heap, obj)
  {
    NothingDangles(heap, owed);
  }

  lemma ClosedUnlinked(heap: Heap, obj: Ref, k: nat, within: set<Ref>)
    requires Live(heap, obj) && k < |Children(heap[obj].body)| && Closed(heap, within)
    ensures Closed(heap[obj := heap[obj].(body := Unlinked(heap[obj].body, k))], within)
  {
    TakenOut(Children(heap[obj].body), k);
    var after := heap[obj := heap[obj].(body := Unlinked(heap[obj].body, k))];
    hide Unlinked, Children;
    forall p: Ref, r: Ref | p in within && Live(after, p) && r in Children(after[p].body) ensures r in within {
      assert Live(heap, p);
      assert r in Children(heap[p].body);
    }
  }

  /** An entry is unlinked and the reference it held is the caller's to give back. */
  lemma UnlinkCounts(heap: Heap, owed: multiset<Ref>, obj: Ref, k: nat, within: set<Ref>)
    requires Counted(heap, owed) && Live(heap, obj) && k < |Children(heap[obj].body)|
    requires Closed(heap, within) && Children(heap[obj].body)[k] in within
    ensures var child := Children(heap[obj].body)[k];
            var after := heap[obj := heap[obj].(body := Unlinked(heap[obj].body, k))];
            && Counted(after, owed + multiset{child}) && Closed(after, within)
            && child != NULL && owed + multiset{child} - multiset{child} == owed
  {
    var children := Children(heap[obj].body);
    var child := children[k];
    var cell := heap[obj].(body := Unlinked(heap[obj].body, k));
    TakenOut(children, k);
    HolderHasEntry(heap, obj, child);
    assert CountOf(heap, child) == (owed + Entries(heap))[child];
    assert heap[NULL] == Freed && child != NULL && obj != NULL;
    ClosedUnlinked(heap, obj, k, within);
    hide Entries, Closed, Counted, Unlinked, Children;
    Recount(heap, owed, obj, cell, owed + multiset{child});
  }

  lemma TakenOut(children: seq<Ref>, k: nat)
    requires k < |children|
    ensures multiset(children) == multiset(children[..k] + children[k + 1..]) + multiset{children[k]}
    ensures forall r :: r in children[..k] + children[k + 1..] ==> r in children
  {
    assert children == children[..k] + ([children[k]] + children[k + 1..]);
  }

  /** A reference the caller holds moves into a new entry. */
  lemma LinkCounts(heap: Heap, owed: multiset<Ref>, obj: Ref, key: string, val: Ref)
    requires Counted(heap, owed) && Live(heap, obj) && !heap[obj].body.Leaf? && val in owed
    ensures Counted(heap[obj := heap[obj].(body := Linked(heap[obj].body, key, val))], owed - multiset{val})
  {
    var cell := heap[obj].(body := Linked(heap[obj].body, key, val));
    assert obj != NULL;
    Recount(heap, owed, obj, cell, owed - multiset{val});
  }

  lemma WholeUpdate(heap: Heap, obj: Ref, cell: Cell)
    requires Whole(heap) && obj < |heap| && Live([cell], 0)
    ensures Whole(heap[obj := cell])
  {
  }

  /** What was kept is still there, unchanged. */
  lemma Survives(before: Heap, after: Heap, owed: multiset<Ref>, obj: Ref, within: set<Ref>)
    requires Released(before, after, within) && Spared(before, after, owed) && Kept(before, owed, obj)
    ensures Live(after, obj) && after[obj].body == before[obj].body
  {
    var kept :| Supported(before, owed, kept) && obj in kept;
    assert AllLive(after, kept);
  }

  /** The store, with the references its callers hold. */
  class JsonStore {
    var heap: Heap
    ghost var owed: multiset<Ref>

    /** No value is half deleted and every count is right. */
    ghost predicate Valid()
      reads this
    {
      Counted(heap, owed) && Whole(heap)
    }

    constructor ()
      ensures Valid() && owed == multiset{} && heap == [Freed]
    {
      heap := [Freed];
      owed := multiset{};
      new;
      EntriesAppend([], Freed);
    }

    /** `json_object_create` and the `json_*_new` around it: the caller gets the first reference. */
    method Create(body: Body) returns (r: Ref)
      requires Valid() && Children(body) == []
      modifies this
      ensures Valid() && r == |old(heap)| && heap == old(heap) + [Node(1, body)]
      ensures owed == old(owed) + multiset{r}
    {
      r := |heap|;
      CountNew(heap, owed, body);
      heap := heap + [Node(1, body)];
      owed := owed + multiset{r};
    }

    /** `json_ref_get` */
    method RefGet(obj: Ref) returns (res: Ref)
      requires Valid() && (obj == NULL || Live(heap, obj))
      modifies this
      ensures Valid() && res == obj
      ensures obj == NULL ==> heap == old(heap) && owed == old(owed)
      ensures obj != NULL ==> heap == old(heap)[obj := old(heap)[obj].(refCount := old(heap)[obj].refCount + 1)]
      ensures obj != NULL ==> owed == old(owed) + multiset{obj}
    {
      if obj == NULL {
        return NULL;
      }
      var cell := heap[obj].(refCount := heap[obj].refCount + 1);
      Recount(heap, owed, obj, cell, owed + multiset{obj});
      heap := heap[obj := cell];
      owed := owed + multiset{obj};
      res := obj;
    }

    /**
     `json_ref_put`: gives back one reference. `within` is any set of addresses closed under entries that holds
     the value: nothing outside it changes.
     */
    method RefPut(obj: Ref, ghost within: set<Ref>)
      requires Counted(heap, owed) && (obj == NULL || obj in owed)
      requires (obj != NULL ==> obj in within) && Closed(heap, within)
      modifies this
      ensures Counted(heap, owed) && Released(old(heap), heap, within)
      ensures old(Valid()) ==> Valid()
      ensures obj != NULL ==> obj < |old(heap)| && old(heap)[obj].Node? && old(heap)[obj].refCount > 0
      ensures obj != NULL && old(heap)[obj].refCount == 1 ==> heap[obj] == Freed
      ensures obj != NULL && old(heap)[obj].refCount > 1 ==>
                heap == old(heap)[obj := old(heap)[obj].(refCount := old(heap)[obj].refCount - 1)]
      ensures owed == old(owed) - (if obj == NULL then multiset{} else multiset{obj})
      ensures Spared(old(heap), heap, owed)
      ensures Population(heap) <= Population(old(heap))
      decreases Population(heap), 0
    {
      if obj == NULL {
        ReleasedNothing(heap, within);
        SparedSame(heap, heap, owed);
        return;
      }
      OwedIsLive(heap, owed, obj);
      ghost var was, owing := heap, owed;
      ghost var rest := owed - multiset{obj};
      var cell := heap[obj].(refCount := heap[obj].refCount - 1);
      hide Counted, Released, Closed, Whole, Population, Children, Spared;
      heap := heap[obj := cell];
      if cell.refCount == 0 {
        LastPut(was, owing, obj, within);
        owed := rest + multiset(Children(cell.body));
        Delete(obj, rest, within);
        Deleted(was, obj, cell, heap, within);
        SparedByDelete(was, owing, obj, heap);
      } else {
        OtherPut(was, owing, obj, within);
        owed := rest;
      }
      if Whole(was) {
        ReleasedWhole(was, heap, within);
      }
    }

    /**
     `delete_primitive`, `delete_string`, `delete_array` and `delete_object`: the entries of a value whose count
     has reached zero are released one by one, each unlinked after its value was released, then it is freed.
     */
    method Delete(obj: Ref, ghost rest: multiset<Ref>, ghost within: set<Ref>)
      requires Counted(heap, owed) && obj < |heap| && heap[obj].Node? && heap[obj].refCount == 0
      requires owed == rest + multiset(Children(heap[obj].body))
      requires obj in within && Closed(heap, within) && forall r :: r in Children(heap[obj].body) ==> r in within
      modifies this
      ensures Counted(heap, owed) && owed == rest
      ensures |heap| == |old(heap)| && heap[obj] == Freed && Released(old(heap)[obj := Freed], heap, within)
      ensures Spared(old(heap), heap, rest)
      ensures Population(heap) <= Population(old(heap))
      decreases Population(heap), 1
    {
      ghost var was := heap;
      DeletingStarts(heap, owed, obj, rest, within);
      hide *;
      while Children(heap[obj].body) != []
        invariant obj < |heap| && heap[obj].Node? && Deleting(was, heap, owed, obj, rest, within)
        decreases |Children(heap[obj].body)|
      {
        var e := Children(heap[obj].body)[0];
        ghost var start := heap;
        ghost var owing := owed;
        DeletingNext(was, heap, owed, obj, rest, within);
        RefPut(e, within);
        DeletingStep(was, start, owing, heap, owed, obj, rest, within);
        heap := heap[obj := Node(0, Unlinked(heap[obj].body, 0))];
      }
      DeletingEnds(was, heap, owed, obj, rest, within);
      heap := heap[obj := Freed];
    }

    /** The two steps the deleting calls share: `list_del` and `json_ref_put`. */
    method ReleaseEntry(obj: Ref, k: nat, ghost within: set<Ref>)
      requires Valid() && Live(heap, obj) && k < |Children(heap[obj].body)|
      requires Closed(heap, within) && Children(heap[obj].body)[k] in within
      modifies this
      ensures Valid() && owed == old(owed)
      ensures var unlinked := old(heap)[obj := old(heap)[obj].(body := Unlinked(old(heap)[obj].body, k))];
              Released(unlinked, heap, within) && Spared(unlinked, heap, owed)
    {
      var child := Children(heap[obj].body)[k];
      var cell := heap[obj].(body := Unlinked(heap[obj].body, k));
      UnlinkCounts(heap, owed, obj, k, within);
      WholeUpdate(heap, obj, cell);
      hide Counted, Closed, Released, Whole, Children, Unlinked, Population, Spared;
      heap := heap[obj := cell];
      owed := owed + multiset{child};
      RefPut(child, within);
    }

    /** `json_array_add`: the caller's reference to `val` becomes the entry's. */
    method ArrayAdd(obj: Ref, val: Ref) returns (code: int)
      requires Valid() && (obj == NULL || Live(heap, obj)) && (val == NULL || val in owed)
      modifies this
      ensures Valid()
      ensures code == if obj == NULL || val == NULL || !old(heap)[obj].body.Array? then -1 else 0
      ensures code == -1 ==> heap == old(heap) && owed == old(owed)
      ensures code == 0 ==> owed == old(owed) - multiset{val}
      ensures code == 0 ==>
                heap == old(heap)[obj := old(heap)[obj].(body := Array(old(heap)[obj].body.elems + [val]))]
    {
      if obj == NULL || val == NULL || !heap[obj].body.Array? {
        return -1;
      }
      LinkCounts(heap, owed, obj, "", val);
      var cell := heap[obj].(body := Array(heap[obj].body.elems + [val]));
      WholeUpdate(heap, obj, cell);
      hide Counted, Whole;
      heap := heap[obj := cell];
      owed := owed - multiset{val};
      code := 0;
    }

    /** `json_array_del`: the entry goes, and what only it kept alive. */
    method ArrayDel(obj: Ref, ind: int, ghost within: set<Ref>)
      requires Valid() && (obj == NULL || Live(heap, obj)) && Closed(heap, within)
      requires obj != NULL && heap[obj].body.Array? && 0 <= ind < |heap[obj].body.elems|
              ==> heap[obj].body.elems[ind] in within
      modifies this
      ensures Valid() && owed == old(owed)
      ensures var hit := obj != NULL && old(heap)[obj].body.Array? && 0 <= ind < |old(heap)[obj].body.elems|;
              if hit then
                var unlinked := old(heap)[obj := old(heap)[obj].(body := Unlinked(old(heap)[obj].body, ind))];
                Released(unlinked, heap, within) && Spared(unlinked, heap, owed)
              else heap == old(heap)
    {
      if obj == NULL || ind < 0 || !heap[obj].body.Array? {
        return;
      }
      if ind < |heap[obj].body.elems| {
        ReleaseEntry(obj, ind, within);
      }
    }

    /** `json_object_get`: a borrowed reference, NULL when the key is missing. */
    method ObjectGet(obj: Ref, key: string) returns (res: Ref)
      requires Valid() && (obj == NULL || Live(heap, obj))
      ensures res != NULL ==> Live(heap, res)
      ensures var hit := obj != NULL && heap[obj].body.Object?
              && Find(heap[obj].body.members, key) < |heap[obj].body.members|;
              res == if hit then heap[obj].body.members[Find(heap[obj].body.members, key)].value else NULL
    {
      if obj == NULL || !heap[obj].body.Object? {
        return NULL;
      }
      var k := Find(heap[obj].body.members, key);
      if k == |heap[obj].body.members| {
        return NULL;
      }
      res := heap[obj].body.members[k].value;
      assert Live(heap, res) by {
        NothingDangles(heap, owed);
        assert Refs(heap[obj].body.members)[k] == res;
      }
    }

    /** `json_object_del` */
    method ObjectDel(obj: Ref, key: string, ghost within: set<Ref>)
      requires Valid() && (obj == NULL || Live(heap, obj)) && Closed(heap, within)
      requires HoldsReplaced(heap, obj, key, within)
      modifies this
      ensures Valid() && owed == old(owed)
      ensures Released(KeyUnlinked(old(heap), obj, key), heap, within)
      ensures Spared(KeyUnlinked(old(heap), obj, key), heap, owed)
    {
      ReleasedNothing(heap, within);
      SparedSame(heap, heap, owed);
      if obj == NULL || !heap[obj].body.Object? {
        return;
      }
      var k := Find(heap[obj].body.members, key);
      if k < |heap[obj].body.members| {
        ReleaseEntry(obj, k, within);
      } else {
        assert KeyUnlinked(heap, obj, key) == heap;
      }
    }

    /**
     `json_object_add`. It deletes an older entry with the key before it touches the object again, so the object must
     be one that this deletion spares: once the entry is unlinked, callers or other kept values still hold it.
     */
    method ObjectAdd(obj: Ref, key: string, val: Ref, ghost within: set<Ref>) returns (code: int)
      requires Valid() && (obj == NULL || Live(heap, obj)) && (val == NULL || val in owed)
      requires Closed(heap, within) && HoldsReplaced(heap, obj, key, within)
      requires obj != NULL && val != NULL && heap[obj].body.Object? ==> Kept(KeyUnlinked(heap, obj, key), owed, obj)
      modifies this
      ensures Valid()
      ensures code == if obj == NULL || val == NULL || !old(heap)[obj].body.Object? then -1 else 0
      ensures code == -1 ==> heap == old(heap) && owed == old(owed)
      ensures code == 0 ==> owed == old(owed) - multiset{val}
      ensures code == 0 ==> Live(heap, obj)
      ensures code == 0 ==> heap[obj].body == Object(Without(old(heap)[obj].body.members, key) + [Member(key, val)])
      ensures code == 0 ==>
                var unlinked := KeyUnlinked(old(heap), obj, key);
                var released := heap[obj := heap[obj].(body := unlinked[obj].body)];
                && Released(unlinked, released, within) && Spared(unlinked, released, old(owed))
    {
      if obj == NULL || val == NULL || !heap[obj].body.Object? {
        return -1;
      }
      ghost var unlinked := KeyUnlinked(heap, obj, key);
      ObjectDel(obj, key, within);
      Survives(unlinked, heap, owed, obj, within);
      LinkCounts(heap, owed, obj, key, val);
      var cell := heap[obj].(body := Object(heap[obj].body.members + [Member(key, val)]));
      WholeUpdate(heap, obj, cell);
      hide Counted, Whole, Released, Closed, KeyUnlinked, Spared, Kept;
      ghost var released := heap;
      heap := heap[obj := cell];
      owed := owed - multiset{val};
      code := 0;
      assert heap[obj := heap[obj].(body := unlinked[obj].body)] == released;
    }
  }

  /** The heap right after `json_object_del` unlinked an entry, before the entry's value is released. */
  function KeyUnlinked(heap: Heap, obj: Ref, key: string): (after: Heap)
    requires obj == NULL || Live(heap, obj)
    ensures |after| == |heap| && forall x: Ref :: x < |heap| && x != obj ==> after[x] == heap[x]
  {
    if obj == NULL || !heap[obj].body.Object? then heap
    else heap[obj := heap[obj].(body := Object(Without(heap[obj].body.members, key)))]
  }

  /** `within` holds the value an add or del with this key releases. */
  ghost predicate HoldsReplaced(heap: Heap, obj: Ref, key: string, within: set<Ref>)
    requires obj == NULL || Live(heap, obj)
  {
    obj != NULL && heap[obj].body.Object? ==>
      var ms := heap[obj].body.members;
      Find(ms, key) < |ms| ==> ms[Find(ms, key)].value in within
  }
}
