/** `json_equals` of src/json.c: its loops, and the algebra of the relation they compute. */
module Equality {
  import opened Values
  import opened Doubles

  /** `json_equals(a, b) == 0`. For arrays: equal lengths, and every entry of the first occurs in the second. */
  function Equal(a: Json, b: Json): bool {
    match a
    case Null => b.Null?
    case Bool(x) => b.Bool? && b.b == x
    case Int(i) => b.Int? && b.i == i
    case Double(d) => b.Double? && Near(d, b.d)
    case Str(s) => b.Str? && b.s == s
    case Arr(es) => b.Arr? && |es| == |b.elems| && forall e | e in es :: Occurs(e, b.elems)
    case Obj(ms) => b.Obj? && |ms| == |b.members| && forall m | m in ms :: Agrees(m, b.members)
  }

  /** Some entry of the array equals e. */
  function Occurs(e: Json, es: seq<Json>): bool {
    exists j | 0 <= j < |es| :: Equal(e, es[j])
  }

  /** The object has a value under the same key, and it is equal. */
  function Agrees(m: Member, ms: seq<Member>): bool {
    var w := Lookup(ms, m.key);
    w.Some? && Equal(m.value, w.value)
  }

  // ----- the loops -----

  method JsonEquals(a: Json, b: Json) returns (eq: bool)
    ensures eq == Equal(a, b)
    ensures DoubleFree(a) && Keyed(a) && NoTwins(a) ==> (eq <==> Rearranged(a, b))
    decreases a, 1
  {
    EqualIfRearranged(a, b);
    hide Rearranged, DoubleFree, Keyed, NoTwins;
    match a
    case Null => eq := b.Null?;
    case Bool(x) => eq := b.Bool? && b.b == x;
    case Int(i) => eq := b.Int? && b.i == i;
    case Double(d) => eq := b.Double? && Near(d, b.d);
    case Str(s) => eq := b.Str? && b.s == s;
    case Arr(_) => eq := ArrayEquals(a, b);
    case Obj(_) => eq := ObjectEquals(a, b);
  }

  /** `array_equals` */
  method ArrayEquals(a: Json, b: Json) returns (eq: bool)
    requires a.Arr?
    ensures eq == Equal(a, b)
    decreases a, 0
  {
    if !b.Arr? || |a.elems| != |b.elems| { return false; }
    var p := 0;
    while p < |a.elems|
      invariant 0 <= p <= |a.elems|
      invariant forall e | e in a.elems[..p] :: Occurs(e, b.elems)
    {
      var isEqual := false;
      for q := 0 to |b.elems|
        invariant isEqual <==> exists j | 0 <= j < q :: Equal(a.elems[p], b.elems[j])
      {
        var same := JsonEquals(a.elems[p], b.elems[q]);
        if same { isEqual := true; }
      }
      if !isEqual {
        assert a.elems[p] in a.elems && !Occurs(a.elems[p], b.elems);
        return false;
      }
      assert Occurs(a.elems[p], b.elems);
      assert a.elems[..p + 1] == a.elems[..p] + [a.elems[p]];
      p := p + 1;
    }
    assert a.elems[..p] == a.elems;
    return true;
  }

  /** `object_equals` */
  method ObjectEquals(a: Json, b: Json) returns (eq: bool)
    requires a.Obj?
    ensures eq == Equal(a, b)
    decreases a, 0
  {
    if !b.Obj? || |a.members| != |b.members| { return false; }
    var p := 0;
    while p < |a.members|
      invariant 0 <= p <= |a.members|
      invariant forall m | m in a.members[..p] :: Agrees(m, b.members)
    {
      var m := a.members[p];
      var tmp := Lookup(b.members, m.key);
      if tmp == None {
        assert m in a.members && !Agrees(m, b.members);
        return false;
      }
      var same := JsonEquals(m.value, tmp.value);
      if !same {
        assert m in a.members && !Agrees(m, b.members);
        return false;
      }
      assert a.members[..p + 1] == a.members[..p] + [m];
      p := p + 1;
    }
    assert a.members[..p] == a.members;
    return true;
  }

  // ----- reflexive, transitive -----

  /** Every tree whose objects have distinct keys equals itself. */
  lemma {:induction false} Reflexive(v: Json)
    requires Keyed(v)
    ensures Equal(v, v)
  {
    match v
    case Arr(es) =>
      forall e | e in es ensures Occurs(e, es) {
        Reflexive(e);
        var j :| 0 <= j < |es| && es[j] == e;
        assert Equal(e, es[j]);
      }
    case Obj(ms) =>
      forall m | m in ms ensures Agrees(m, ms) {
        Reflexive(m.value);
        LookupFindsEntries(ms, m.key, m.value);
      }
    case Double(d) => NearSelf(d);
    case _ =>
  }

  lemma FoundEntry(ms: seq<Member>, key: string)
    requires Lookup(ms, key).Some?
    ensures Member(key, Lookup(ms, key).value) in ms
  {
    assert ms[Find(ms, key)] == Member(key, Lookup(ms, key).value);
  }

  lemma {:induction false} Transitive(a: Json, b: Json, c: Json)
    requires DoubleFree(a) && Equal(a, b) && Equal(b, c)
    ensures Equal(a, c)
  {
    match a
    case Arr(es) =>
      forall e | e in es ensures Occurs(e, c.elems) {
        assert Occurs(e, b.elems);
        var j :| 0 <= j < |b.elems| && Equal(e, b.elems[j]);
        assert b.elems[j] in b.elems && Occurs(b.elems[j], c.elems);
        var k :| 0 <= k < |c.elems| && Equal(b.elems[j], c.elems[k]);
        Transitive(e, b.elems[j], c.elems[k]);
      }
    case Obj(ms) =>
      forall m | m in ms ensures Agrees(m, c.members) {
        assert Agrees(m, b.members);
        var w := Lookup(b.members, m.key).value;
        FoundEntry(b.members, m.key);
        assert Agrees(Member(m.key, w), c.members);
        Transitive(m.value, w, Lookup(c.members, m.key).value);
      }
    case _ =>
  }

  // ----- symmetric, exactly when no array holds two equal entries -----

  /** No array in the tree holds two equal entries. */
  ghost predicate NoTwins(v: Json) {
    match v
    case Arr(es) =>
      && (forall i, j :: 0 <= i < |es| && 0 <= j < |es| && i != j ==> !Equal(es[i], es[j]))
      && forall e | e in es :: NoTwins(e)
    case Obj(ms) => forall m | m in ms :: NoTwins(m.value)
    case _ => true
  }

  ghost function Below(n: nat): (r: set<int>)
    ensures |r| == n && forall x :: x in r <==> 0 <= x < n
  {
    if n == 0 then {} else Below(n - 1) + {n - 1}
  }

  ghost predicate Distinct(f: seq<int>) { forall i, k :: 0 <= i < k < |f| ==> f[i] != f[k] }

  ghost function Image(f: seq<int>): (r: set<int>)
    ensures forall x :: x in r <==> x in f
    ensures Distinct(f) ==> |r| == |f|
  {
    if f == [] then {}
    else
      assert f == f[..|f| - 1] + [f[|f| - 1]];
      Image(f[..|f| - 1]) + {f[|f| - 1]}
  }

  lemma SubsetSize(s: set<int>, t: set<int>)
    requires s <= t
    ensures |s| <= |t|
  {
    assert s + (t - s) == t && s * (t - s) == {};
  }

  /** As many different numbers below n as there are numbers below n: each of them occurs. */
  lemma Pigeonhole(f: seq<int>, n: nat, j: int)
    requires |f| == n && 0 <= j < n && Distinct(f)
    requires forall i :: 0 <= i < n ==> 0 <= f[i] < n
    ensures j in f
  {
    if j !in f {
      assert |Below(n) - {j}| == n - 1;
      SubsetSize(Image(f), Below(n) - {j});
    }
  }

  /** Where each entry of the first array is found in the second. */
  lemma {:induction false} Matching(xs: seq<Json>, ys: seq<Json>, n: nat) returns (f: seq<int>)
    requires n <= |xs| && forall e | e in xs :: Occurs(e, ys)
    ensures |f| == n && forall i :: 0 <= i < n ==> 0 <= f[i] < |ys| && Equal(xs[i], ys[f[i]])
  {
    f := [];
    if n > 0 {
      f := Matching(xs, ys, n - 1);
      assert xs[n - 1] in xs && Occurs(xs[n - 1], ys);
      var j :| 0 <= j < |ys| && Equal(xs[n - 1], ys[j]);
      f := f + [j];
    }
  }

  /**
   If no two entries on the left are equal, equality holds the other way round too: a pigeonhole argument at every
   level.
   */
  lemma {:induction false} Symmetric(a: Json, b: Json)
    requires DoubleFree(a) && Keyed(a) && NoTwins(a) && Equal(a, b)
    ensures Equal(b, a)
    decreases a, 1
  {
    match a
    case Arr(xs) => SymmetricArray(a, b);
    case Obj(ms) => SymmetricObject(a, b);
    case _ =>
  }

  lemma {:induction false} SymmetricArray(a: Json, b: Json)
    requires a.Arr? && DoubleFree(a) && Keyed(a) && NoTwins(a) && Equal(a, b)
    ensures Equal(b, a)
    decreases a, 0
  {
    var xs, ys := a.elems, b.elems;
    var f := Matching(xs, ys, |xs|);
    forall i, k | 0 <= i < k < |xs| ensures f[i] != f[k] {
      if f[i] == f[k] {
        Symmetric(xs[k], ys[f[k]]);
        Transitive(xs[i], ys[f[i]], xs[k]);
      }
    }
    forall y | y in ys ensures Occurs(y, xs) {
      var j :| 0 <= j < |ys| && ys[j] == y;
      Pigeonhole(f, |ys|, j);
      var i :| 0 <= i < |xs| && f[i] == j;
      Symmetric(xs[i], y);
    }
  }

  lemma {:induction false} SymmetricObject(a: Json, b: Json)
    requires a.Obj? && DoubleFree(a) && Keyed(a) && NoTwins(a) && Equal(a, b)
    ensures Equal(b, a)
    decreases a, 0
  {
    var ms, ns := a.members, b.members;
    forall i | 0 <= i < |ms| ensures Agrees(ms[i], ns) { assert ms[i] in ms; }
    var f := seq(|ms|, i requires 0 <= i < |ms| => Find(ns, ms[i].key));
    forall n | n in ns ensures Agrees(n, ms) {
      var j :| 0 <= j < |ns| && ns[j] == n;
      assert forall i :: 0 <= i < |ms| ==> f[i] < |ns| && ns[f[i]].key == ms[i].key;
      Pigeonhole(f, |ns|, j);
      var i :| 0 <= i < |ms| && f[i] == j;
      LookupFindsEntries(ms, n.key, ms[i].value);
      assert ms[i] == Member(n.key, ms[i].value);
      Symmetric(ms[i].value, n.value);
    }
  }

  function Depth(v: Json): nat
    decreases v, 1
  {
    match v
    case Arr(es) => 1 + ElemsDepth(es)
    case Obj(ms) => 1 + MembersDepth(ms)
    case _ => 0
  }

  function Max(a: nat, b: nat): nat { if a < b then b else a }

  function ElemsDepth(es: seq<Json>): nat
    decreases es, 0
  {
    if es == [] then 0 else Max(ElemsDepth(es[..|es| - 1]), Depth(es[|es| - 1]))
  }

  function MemberDepth(m: Member): nat
    decreases m, 0
  {
    Depth(m.value)
  }

  function MembersDepth(ms: seq<Member>): nat
    decreases ms, 0
  {
    if ms == [] then 0 else Max(MembersDepth(ms[..|ms| - 1]), MemberDepth(ms[|ms| - 1]))
  }

  lemma {:induction false} ElemsDepthBound(es: seq<Json>, n: nat)
    ensures (forall e | e in es :: Depth(e) <= n) <==> ElemsDepth(es) <= n
  {
    if es != [] {
      var init, e := es[..|es| - 1], es[|es| - 1];
      ElemsDepthBound(init, n);
      assert e in es && forall d :: d in es <==> d in init || d == e;
    }
  }

  lemma {:induction false} MembersDepthBound(ms: seq<Member>, n: nat)
    ensures (forall m | m in ms :: Depth(m.value) <= n) <==> MembersDepth(ms) <= n
  {
    if ms != [] {
      var init, m := ms[..|ms| - 1], ms[|ms| - 1];
      MembersDepthBound(init, n);
      assert m in ms && forall d :: d in ms <==> d in init || d == m;
    }
  }

  lemma {:induction false} EqualDepth(a: Json, b: Json)
    requires Equal(a, b)
    ensures Depth(a) <= Depth(b)
  {
    match a
    case Arr(es) =>
      ElemsDepthBound(b.elems, ElemsDepth(b.elems));
      forall e | e in es ensures Depth(e) <= ElemsDepth(b.elems) {
        assert Occurs(e, b.elems);
        var j :| 0 <= j < |b.elems| && Equal(e, b.elems[j]);
        EqualDepth(e, b.elems[j]);
      }
      ElemsDepthBound(es, ElemsDepth(b.elems));
    case Obj(ms) =>
      MembersDepthBound(b.members, MembersDepth(b.members));
      forall m | m in ms ensures Depth(m.value) <= MembersDepth(b.members) {
        assert Agrees(m, b.members);
        FoundEntry(b.members, m.key);
        EqualDepth(m.value, Lookup(b.members, m.key).value);
      }
      MembersDepthBound(ms, MembersDepth(b.members));
    case _ =>
  }

  function Nested(n: nat): (v: Json)
    ensures Keyed(v) && DoubleFree(v) && Depth(v) > n
  {
    if n == 0 then Arr([])
    else
      var v := Arr([Nested(n - 1)]);
      ElemsDepthBound(v.elems, ElemsDepth(v.elems));
      assert v.elems[0] in v.elems;
      v
  }

  lemma ReplacedElem(es: seq<Json>, k: nat, v: Json, n: nat)
    requires k < |es| && Keyed(Arr(es)) && DoubleFree(Arr(es)) && Keyed(v) && DoubleFree(v) && Depth(v) > n
    requires Occurs(es[k], es[k := v])
    ensures var b := Arr(es[k := v]); Equal(Arr(es), b) && Depth(b) > n && Keyed(b) && DoubleFree(b)
  {
    var fs := es[k := v];
    forall e | e in es ensures Occurs(e, fs) {
      var l :| 0 <= l < |es| && es[l] == e;
      if l != k {
        Reflexive(e);
        assert Equal(e, fs[l]);
      }
    }
    assert fs[k] == v && v in fs;
    ElemsDepthBound(fs, ElemsDepth(fs));
    forall e | e in fs ensures Keyed(e) && DoubleFree(e) { assert e in es || e == v; }
  }

  lemma ReplacedMember(ms: seq<Member>, k: nat, v: Json, n: nat)
    requires k < |ms| && Keyed(Obj(ms)) && DoubleFree(Obj(ms)) && Keyed(v) && DoubleFree(v) && Depth(v) > n
    requires Equal(ms[k].value, v)
    ensures var b := Obj(ms[k := Member(ms[k].key, v)]); Equal(Obj(ms), b) && Depth(b) > n && Keyed(b) && DoubleFree(b)
  {
    var ns := ms[k := Member(ms[k].key, v)];
    assert forall i :: 0 <= i < |ms| ==> ns[i].key == ms[i].key;
    forall m | m in ms ensures Agrees(m, ns) {
      var l :| 0 <= l < |ms| && ms[l] == m;
      Reflexive(m.value);
      assert ns[l] in ns && ns[l] == Member(m.key, ns[l].value);
      LookupFindsEntries(ns, m.key, ns[l].value);
    }
    assert ns[k] in ns;
    MembersDepthBound(ns, MembersDepth(ns));
    forall m | m in ns ensures Keyed(m.value) && DoubleFree(m.value) { assert m in ms || m == ns[k]; }
  }

  /** Two equal entries somewhere leave room for a stranger: an equal tree of any depth. */
  lemma {:induction false} TwinsHideAnything(a: Json, n: nat) returns (b: Json)
    requires DoubleFree(a) && Keyed(a) && !NoTwins(a)
    ensures Equal(a, b) && Depth(b) > n && Keyed(b) && DoubleFree(b)
  {
    match a
    case Arr(es) =>
      if i, j :| 0 <= i < |es| && 0 <= j < |es| && i != j && Equal(es[i], es[j]) {
        b := Arr(es[i := Nested(n)]);
        assert Equal(es[i], b.elems[j]);
        ReplacedElem(es, i, Nested(n), n);
      } else {
        var k :| 0 <= k < |es| && !NoTwins(es[k]);
        var v := TwinsHideAnything(es[k], n);
        b := Arr(es[k := v]);
        assert Equal(es[k], b.elems[k]);
        ReplacedElem(es, k, v, n);
      }
    case Obj(ms) =>
      var k :| 0 <= k < |ms| && !NoTwins(ms[k].value);
      var v := TwinsHideAnything(ms[k].value, n);
      b := Obj(ms[k := Member(ms[k].key, v)]);
      ReplacedMember(ms, k, v, n);
  }

  /**
   `json_equals` can be turned round at a, against every tree, if and only if no array in a holds two equal
   entries. With doubles left aside and distinct keys in objects, as `json_object_add` keeps them.
   */
  lemma SymmetricExact(a: Json)
    requires DoubleFree(a) && Keyed(a)
    ensures (forall b :: Keyed(b) && DoubleFree(b) && Equal(a, b) ==> Equal(b, a)) <==> NoTwins(a)
  {
    if NoTwins(a) {
      forall b | Keyed(b) && DoubleFree(b) && Equal(a, b) ensures Equal(b, a) { Symmetric(a, b); }
    } else {
      var b := TwinsHideAnything(a, Depth(a));
      assert !Equal(b, a) by { if Equal(b, a) { EqualDepth(b, a); } }
      assert Keyed(b) && DoubleFree(b) && Equal(a, b);
    }
  }

  // ----- rearranged trees are equal -----

  ghost predicate Permutation(p: seq<int>, n: nat) {
    |p| == n && Distinct(p) && forall i :: 0 <= i < n ==> 0 <= p[i] < n
  }

  /** b is a with array entries and object entries reordered, at any depth. */
  ghost predicate Rearranged(a: Json, b: Json) {
    match a
    case Arr(es) =>
      && b.Arr? && |b.elems| == |es|
      && exists p :: Permutation(p, |es|) && forall i | 0 <= i < |es| :: Rearranged(es[i], b.elems[p[i]])
    case Obj(ms) =>
      && b.Obj? && |b.members| == |ms|
      && exists p :: Permutation(p, |ms|) &&
           forall i | 0 <= i < |ms| :: b.members[p[i]].key == ms[i].key
               && Rearranged(ms[i].value, b.members[p[i]].value)
    case _ => a == b
  }

  lemma RearrangedKeys(ms: seq<Member>, ns: seq<Member>, p: seq<int>)
    requires DistinctKeys(ms) && |ns| == |ms| && Permutation(p, |ms|)
    requires forall i | 0 <= i < |ms| :: ns[p[i]].key == ms[i].key
    ensures DistinctKeys(ns)
  {
    forall j, l | 0 <= j < l < |ns| ensures ns[j].key != ns[l].key {
      Pigeonhole(p, |ms|, j);
      Pigeonhole(p, |ms|, l);
      var i :| 0 <= i < |ms| && p[i] == j;
      var k :| 0 <= k < |ms| && p[k] == l;
    }
  }

  /** The order of array entries and of object entries plays no part, at any depth. */
  lemma {:induction false} RearrangedEqual(a: Json, b: Json)
    requires Keyed(a) && Rearranged(a, b)
    ensures Equal(a, b)
    decreases a, 1
  {
    match a
    case Arr(es) => RearrangedArray(es, b);
    case Obj(ms) => RearrangedObject(ms, b);
    case Double(d) => NearSelf(d);
    case _ =>
  }

  lemma {:induction false} RearrangedArray(es: seq<Json>, b: Json)
    requires Keyed(Arr(es)) && Rearranged(Arr(es), b)
    ensures Equal(Arr(es), b)
    decreases Arr(es), 0
  {
    var p :| Permutation(p, |es|) && forall i | 0 <= i < |es| :: Rearranged(es[i], b.elems[p[i]]);
    forall e | e in es ensures Occurs(e, b.elems) {
      var i :| 0 <= i < |es| && es[i] == e;
      RearrangedEqual(e, b.elems[p[i]]);
    }
  }

  lemma {:induction false} RearrangedObject(ms: seq<Member>, b: Json)
    requires Keyed(Obj(ms)) && Rearranged(Obj(ms), b)
    ensures Equal(Obj(ms), b)
    decreases Obj(ms), 0
  {
    var p :| Permutation(p, |ms|) &&
      forall i | 0 <= i < |ms| :: b.members[p[i]].key == ms[i].key && Rearranged(ms[i].value, b.members[p[i]].value);
    RearrangedKeys(ms, b.members, p);
    forall m | m in ms ensures Agrees(m, b.members) {
      var i :| 0 <= i < |ms| && ms[i] == m;
      RearrangedEqual(m.value, b.members[p[i]].value);
      assert b.members[p[i]] in b.members && b.members[p[i]] == Member(m.key, b.members[p[i]].value);
      LookupFindsEntries(b.members, m.key, b.members[p[i]].value);
    }
  }

  // ----- and the other way round -----

  /** Where no array holds two equal entries, an equal tree is a rearranged one: the two are the same but for order. */
  lemma {:induction false} EqualRearranged(a: Json, b: Json)
    requires DoubleFree(a) && Keyed(a) && NoTwins(a) && Equal(a, b)
    ensures Rearranged(a, b)
    decreases a, 1
  {
    match a
    case Arr(xs) => EqualArrays(xs, b);
    case Obj(ms) => EqualObjects(ms, b);
    case _ =>
  }

  lemma {:induction false} EqualArrays(xs: seq<Json>, b: Json)
    requires DoubleFree(Arr(xs)) && Keyed(Arr(xs)) && NoTwins(Arr(xs)) && Equal(Arr(xs), b)
    ensures Rearranged(Arr(xs), b)
    decreases Arr(xs), 0
  {
    var ys := b.elems;
    var f := Matching(xs, ys, |xs|);
    forall i, k | 0 <= i < k < |xs| ensures f[i] != f[k] {
      if f[i] == f[k] {
        Symmetric(xs[k], ys[f[k]]);
        Transitive(xs[i], ys[f[i]], xs[k]);
      }
    }
    forall i | 0 <= i < |xs| ensures Rearranged(xs[i], ys[f[i]]) { EqualRearranged(xs[i], ys[f[i]]); }
    assert Permutation(f, |xs|);
  }

  lemma {:induction false} EqualObjects(ms: seq<Member>, b: Json)
    requires DoubleFree(Obj(ms)) && Keyed(Obj(ms)) && NoTwins(Obj(ms)) && Equal(Obj(ms), b)
    ensures Rearranged(Obj(ms), b)
    decreases Obj(ms), 0
  {
    var ns := b.members;
    var f := seq(|ms|, i requires 0 <= i < |ms| => Find(ns, ms[i].key));
    forall i | 0 <= i < |ms|
      ensures f[i] < |ns| && ns[f[i]].key == ms[i].key && Rearranged(ms[i].value, ns[f[i]].value)
    {
      assert ms[i] in ms && Agrees(ms[i], ns);
      EqualRearranged(ms[i].value, ns[f[i]].value);
    }
    assert Permutation(f, |ms|);
  }

  /** What `json_equals` decides, with doubles left aside, where no array holds two equal entries. */
  lemma EqualIfRearranged(a: Json, b: Json)
    ensures DoubleFree(a) && Keyed(a) && NoTwins(a) ==> (Equal(a, b) <==> Rearranged(a, b))
  {
    hide Rearranged, DoubleFree, Keyed, NoTwins, Equal;
    if DoubleFree(a) && Keyed(a) && NoTwins(a) {
      if Equal(a, b) { EqualRearranged(a, b); }
      if Rearranged(a, b) { RearrangedEqual(a, b); }
    }
  }
}
