/** `json_equals` on doubles: near ones are equal, so equality does not chain; exactly where it does not. */
module Epsilon {
  import opened Values
  import opened Doubles
  import opened Equality

  // ----- the doubles in a tree -----

  function DoublesOf(v: Json): seq<real>
    decreases v, 1
  {
    match v
    case Double(x) => [x]
    case Arr(es) => DoublesIn(es)
    case Obj(ms) => DoublesUnder(ms)
    case _ => []
  }

  function DoublesIn(es: seq<Json>): seq<real>
    decreases es, 0
  {
    if es == [] then [] else DoublesIn(es[..|es| - 1]) + DoublesOf(es[|es| - 1])
  }

  function DoublesAt(m: Member): seq<real>
    decreases m, 0
  {
    DoublesOf(m.value)
  }

  function DoublesUnder(ms: seq<Member>): seq<real>
    decreases ms, 0
  {
    if ms == [] then [] else DoublesUnder(ms[..|ms| - 1]) + DoublesAt(ms[|ms| - 1])
  }

  lemma {:induction false} InElems(es: seq<Json>, x: real)
    ensures x in DoublesIn(es) <==> exists i :: 0 <= i < |es| && x in DoublesOf(es[i])
  {
    hide DoublesOf;
    if es != [] {
      var init := es[..|es| - 1];
      InElems(init, x);
      assert forall i :: 0 <= i < |init| ==> init[i] == es[i];
    }
  }

  lemma {:induction false} InMembers(ms: seq<Member>, x: real)
    ensures x in DoublesUnder(ms) <==> exists i :: 0 <= i < |ms| && x in DoublesOf(ms[i].value)
  {
    hide DoublesOf;
    if ms != [] {
      var init := ms[..|ms| - 1];
      InMembers(init, x);
      assert forall i :: 0 <= i < |init| ==> init[i] == ms[i];
    }
  }

  /** Every double in the tree is a finite one. */
  ghost predicate Finite(v: Json) { forall x | x in DoublesOf(v) :: Representable(x) }

  /** Every double in the tree is one: finite, an infinity or NaN. */
  ghost predicate AllDoubles(v: Json) {
    forall x | x in DoublesOf(v) :: Representable(x) || Abs(x) == Infinity() || x == NotANumber()
  }

  lemma ElemDoubles(es: seq<Json>, i: nat)
    requires i < |es|
    ensures forall x | x in DoublesOf(es[i]) :: x in DoublesOf(Arr(es))
  {
    forall x | x in DoublesOf(es[i]) ensures x in DoublesIn(es) { InElems(es, x); }
  }

  lemma MemberDoubles(ms: seq<Member>, i: nat)
    requires i < |ms|
    ensures forall x | x in DoublesOf(ms[i].value) :: x in DoublesOf(Obj(ms))
  {
    forall x | x in DoublesOf(ms[i].value) ensures x in DoublesUnder(ms) { InMembers(ms, x); }
  }

  /** An equal tree has a double near each double. */
  lemma {:induction false} NearDouble(a: Json, c: Json, x: real)
    requires Equal(a, c) && x in DoublesOf(a)
    ensures exists y :: y in DoublesOf(c) && Near(x, y)
  {
    hide Near;
    match a
    case Double(_) => assert c.d in DoublesOf(c);
    case Arr(es) =>
      InElems(es, x);
      var i :| 0 <= i < |es| && x in DoublesOf(es[i]);
      assert es[i] in es && Occurs(es[i], c.elems);
      var j :| 0 <= j < |c.elems| && Equal(es[i], c.elems[j]);
      NearDouble(es[i], c.elems[j], x);
      var y :| y in DoublesOf(c.elems[j]) && Near(x, y);
      InElems(c.elems, y);
    case Obj(ms) =>
      InMembers(ms, x);
      var i :| 0 <= i < |ms| && x in DoublesOf(ms[i].value);
      assert ms[i] in ms && Agrees(ms[i], c.members);
      var j := Find(c.members, ms[i].key);
      NearDouble(ms[i].value, c.members[j].value, x);
      var y :| y in DoublesOf(c.members[j].value) && Near(x, y);
      InMembers(c.members, y);
  }

  // ----- a tree with its doubles changed -----

  function Map(v: Json, f: real -> real): Json
    decreases v, 1
  {
    match v
    case Double(x) => Double(f(x))
    case Arr(es) => Arr(MapElems(es, f))
    case Obj(ms) => Obj(MapMembers(ms, f))
    case _ => v
  }

  function MapElems(es: seq<Json>, f: real -> real): (us: seq<Json>)
    ensures |us| == |es| && forall i :: 0 <= i < |es| ==> us[i] == Map(es[i], f)
    decreases es, 0
  {
    if es == [] then [] else MapElems(es[..|es| - 1], f) + [Map(es[|es| - 1], f)]
  }

  function MapMember(m: Member, f: real -> real): Member
    decreases m, 0
  {
    Member(m.key, Map(m.value, f))
  }

  function MapMembers(ms: seq<Member>, f: real -> real): (us: seq<Member>)
    ensures |us| == |ms| && forall i :: 0 <= i < |ms| ==> us[i] == Member(ms[i].key, Map(ms[i].value, f))
    decreases ms, 0
  {
    if ms == [] then [] else MapMembers(ms[..|ms| - 1], f) + [MapMember(ms[|ms| - 1], f)]
  }

  lemma {:induction false} MapDouble(v: Json, f: real -> real, y: real)
    requires y in DoublesOf(Map(v, f))
    ensures exists x :: x in DoublesOf(v) && y == f(x)
  {
    match v
    case Double(x) => assert x in DoublesOf(v);
    case Arr(es) =>
      InElems(MapElems(es, f), y);
      var i :| 0 <= i < |es| && y in DoublesOf(Map(es[i], f));
      MapDouble(es[i], f, y);
      var x :| x in DoublesOf(es[i]) && y == f(x);
      InElems(es, x);
    case Obj(ms) =>
      InMembers(MapMembers(ms, f), y);
      var i :| 0 <= i < |ms| && y in DoublesOf(Map(ms[i].value, f));
      MapDouble(ms[i].value, f, y);
      var x :| x in DoublesOf(ms[i].value) && y == f(x);
      InMembers(ms, x);
    case _ =>
  }

  /** Two changes that keep near each other make equal trees. */
  lemma {:induction false} MapsEqual(v: Json, f: real -> real, g: real -> real)
    requires Keyed(v) && forall x | x in DoublesOf(v) :: Near(f(x), g(x))
    ensures Equal(Map(v, f), Map(v, g))
    decreases v, 1
  {
    hide Near;
    match v
    case Double(x) => assert x in DoublesOf(v);
    case Arr(es) =>
      var us, ws := MapElems(es, f), MapElems(es, g);
      forall u | u in us ensures Occurs(u, ws) {
        var i :| 0 <= i < |us| && us[i] == u;
        assert es[i] in es;
        forall x | x in DoublesOf(es[i]) ensures Near(f(x), g(x)) { InElems(es, x); }
        MapsEqual(es[i], f, g);
        assert Equal(us[i], ws[i]);
      }
    case Obj(ms) => MapsAgree(ms, f, g);
    case _ =>
  }

  lemma {:induction false} MapsAgree(ms: seq<Member>, f: real -> real, g: real -> real)
    requires Keyed(Obj(ms)) && forall x | x in DoublesUnder(ms) :: Near(f(x), g(x))
    ensures Equal(Map(Obj(ms), f), Map(Obj(ms), g))
    decreases Obj(ms), 0
  {
    hide Near;
    var us, ws := MapMembers(ms, f), MapMembers(ms, g);
    assert DistinctKeys(ws);
    forall u | u in us ensures Agrees(u, ws) {
      var i :| 0 <= i < |us| && us[i] == u;
      assert ms[i] in ms;
      forall x | x in DoublesOf(ms[i].value) ensures Near(f(x), g(x)) { InMembers(ms, x); }
      MapsEqual(ms[i].value, f, g);
      assert ws[i] in ws && ws[i] == Member(u.key, Map(ms[i].value, g));
      LookupFindsEntries(ws, u.key, Map(ms[i].value, g));
    }
  }

  lemma {:induction false} MapNothing(v: Json, f: real -> real)
    requires forall x :: f(x) == x
    ensures Map(v, f) == v
  {
    match v
    case Arr(es) =>
      forall i | 0 <= i < |es| ensures Map(es[i], f) == es[i] { MapNothing(es[i], f); }
      assert MapElems(es, f) == es;
    case Obj(ms) =>
      forall i | 0 <= i < |ms| ensures Map(ms[i].value, f) == ms[i].value { MapNothing(ms[i].value, f); }
      assert MapMembers(ms, f) == ms;
    case _ =>
  }

  // ----- doubles and the distance that counts as near -----

  const LIMIT: real := 536870912.0  // 2 to the 29th

  /** Numbers of this size lie on a grid that is at least this coarse. */
  lemma OnCoarseGrid(x: real, k: int) returns (n: int)
    requires Representable(x) && Abs(x) >= Pow2(52 + k)
    ensures x == Scaled(n, k)
  {
    var m: int, e: int :| MIN_EXP <= e <= MAX_EXP && -MANTISSA < m < MANTISSA && x == Scaled(m, e);
    if e < k {
      ScaledLess(m, MANTISSA, e);
      ScaledLess(-MANTISSA, m, e);
      Negated(MANTISSA, e);
      MantissaIs(e);
      hide Scaled, Pow2;
      Pow2Grows(53 + e, 52 + k);
      assert false;
    } else {
      n := Finer(m, e, k);
    }
  }

  lemma Powers2()
    ensures Pow2(29) == LIMIT && Pow2(28) == LIMIT / 2.0 && Pow2(27) == LIMIT / 4.0
    ensures Pow2(-23) == 1.0 / 8388608.0 && Pow2(-24) == 1.0 / 16777216.0
    ensures Pow2(-25) == 1.0 / 33554432.0 && Pow2(-27) == 1.0 / 134217728.0
  {
    assert Pow2(10) == 1024.0 && Pow2(20) == 1048576.0;
    assert Pow2(-10) == 1.0 / 1024.0 && Pow2(-20) == 1.0 / 1048576.0;
  }

  lemma NumbersAreNumbers(x: real)
    requires Representable(x)
    ensures x != NotANumber()
  {
    RoundKeeps(x);
    Pow2Grows(1024, 1025);
  }

  const STEP: real := 1.0 / 33554432.0  // 2 to the power -25

  /** Three steps are near, three and a half are not. */
  lemma NearEnough(x: real, y: real)
    requires Abs(x - y) <= 3.0 * STEP
    ensures Near(x, y)
  {
    EpsilonRange();
    AtMost12(x - y);
    Powers2();
    hide Round;
  }

  lemma AtMost12(d: real)
    requires Abs(d) <= 3.0 * STEP
    ensures Abs(Round(d)) <= 3.0 * STEP
  {
    Powers2();
    RoundScaled(12, -27);
    RoundScaled(-12, -27);
    assert Scaled(12, -27) == 3.0 * STEP && Scaled(-12, -27) == -3.0 * STEP;
    RoundMonotone(d, Scaled(12, -27));
    RoundMonotone(Scaled(-12, -27), d);
    hide Round;
  }

  lemma TooFar(x: real, y: real)
    requires x != NotANumber() && y != NotANumber() && Abs(x - y) >= 3.5 * STEP
    ensures !Near(x, y)
  {
    EpsilonRange();
    AtLeast14(x - y);
    Powers2();
    hide Round;
  }

  lemma AtLeast14(d: real)
    requires Abs(d) >= 3.5 * STEP
    ensures Abs(Round(d)) >= 3.5 * STEP
  {
    Powers2();
    RoundScaled(14, -27);
    RoundScaled(-14, -27);
    assert Scaled(14, -27) == 3.5 * STEP && Scaled(-14, -27) == -3.5 * STEP;
    if d >= 0.0 {
      RoundMonotone(Scaled(14, -27), d);
    } else {
      RoundMonotone(d, Scaled(-14, -27));
    }
    hide Round;
  }

  /** From 2 to the 29th on there is no other double near a double. */
  lemma FarAlone(x: real, y: real)
    requires Representable(x) && Representable(y) && Abs(x) > LIMIT
    ensures (Near(x, y) <==> x == y) && (Near(y, x) <==> x == y)
  {
    if x == y {
      NearSelf(x);
    } else {
      NumbersAreNumbers(x);
      NumbersAreNumbers(y);
      Powers2();
      var m := OnCoarseGrid(x, -23);
      hide Near, Representable, Pow2, NotANumber;
      if Abs(y) >= LIMIT {
        var n := OnCoarseGrid(y, -23);
        GridApart(m, n);
      } else {
        GridApart(m, 0x10_0000_0000_0000);
        GridApart(m, -0x10_0000_0000_0000);
      }
      TooFar(x, y);
      TooFar(y, x);
    }
  }

  lemma GridApart(m: int, n: int)
    ensures m != n ==> Abs(Scaled(m, -23) - Scaled(n, -23)) >= 4.0 * STEP
    ensures Scaled(0x10_0000_0000_0000, -23) == LIMIT && Scaled(-0x10_0000_0000_0000, -23) == -LIMIT
  {
    Powers2();
    assert Scaled(m, -23) - Scaled(n, -23) == (m - n) as real / 8388608.0;
  }

  // ----- two steps up -----

  /** The double somewhat above x, and the one as much above that. */
  function UpBy(x: real): (k: int)
  {
    var u := x * 33554432.0;
    var n := -(-u).Floor;
    if n % 2 == 0 || n as real != u then n + 2 else n + 3
  }

  function Up(x: real): real { Scaled(UpBy(x), -25) }
  function UpAgain(x: real): real { Scaled(UpBy(x) + 2, -25) }

  lemma UpSteps(x: real)
    ensures 0.0 < Up(x) - x <= 3.0 * STEP && UpAgain(x) - Up(x) == 2.0 * STEP && UpAgain(x) - x >= 4.0 * STEP
  {
    var u := x * 33554432.0;
    var n := -(-u).Floor;
    assert n as real - 1.0 < u <= n as real;
    InSteps(UpBy(x));
    InSteps(UpBy(x) + 2);
    assert x == u * STEP;
  }

  lemma InSteps(k: int)
    ensures Scaled(k, -25) == k as real * STEP
  {
    Powers2();
    var p := Pow2(-25);
    assert p == STEP;
    hide Pow2;
  }

  lemma UpIsDouble(x: real)
    requires Representable(x) && -LIMIT <= x <= LIMIT - 8.0 * STEP
    ensures Representable(Up(x)) && Representable(UpAgain(x))
  {
    Powers2();
    hide UpBy, Scaled, Pow2;
    if Abs(x) < LIMIT / 4.0 {
      UpBySmall(x);
    } else {
      var n := OnCoarseGrid(x, -25);
      InSteps(n);
      UpByLarge(x, n);
      var k := UpBy(x);
      assert k == 2 * (k / 2) && k + 2 == 2 * (k / 2 + 1);
      HalfGrid(k / 2);
      HalfGrid(k / 2 + 1);
    }
  }

  lemma UpBySmall(x: real)
    requires Abs(x) < LIMIT / 4.0
    ensures Representable(Up(x)) && Representable(UpAgain(x))
  {
    UpByRange(x);
    var k := UpBy(x);
    assert -MANTISSA < k < MANTISSA && -MANTISSA < k + 2 < MANTISSA;
    hide UpBy, Scaled;
  }

  lemma UpByRange(x: real)
    ensures x * 33554432.0 < UpBy(x) as real <= x * 33554432.0 + 3.0
  {
  }

  lemma UpByLarge(x: real, n: int)
    requires x == n as real * STEP && -LIMIT <= x <= LIMIT - 8.0 * STEP
    ensures UpBy(x) % 2 == 0 && -MANTISSA < UpBy(x) / 2 && UpBy(x) / 2 + 1 < MANTISSA
  {
    assert x * 33554432.0 == n as real;
    UpByWhole(n);
    assert -18014398509481984 <= n <= 18014398509481976;
    hide UpBy;
  }

  lemma UpByWhole(n: int)
    ensures var x := n as real * STEP; UpBy(x) == if n % 2 == 0 then n + 2 else n + 3
  {
    var u := n as real * STEP * 33554432.0;
    assert u == n as real;
    assert (-u).Floor == -n;
  }

  lemma HalfGrid(n: int)
    requires -MANTISSA < n < MANTISSA
    ensures Representable(Scaled(2 * n, -25))
  {
    Powers2();
    assert Scaled(2 * n, -25) == Scaled(n, -24);
  }

  // ----- where equality chains -----

  /** Equality of trees of finite doubles chains from a, whatever it is compared with. */
  ghost predicate Chains(a: Json) {
    forall b, c :: Finite(b) && Finite(c) && Equal(a, b) && Equal(b, c) ==> Equal(a, c)
  }

  /** No double in the tree is small enough to have others near it on both sides. */
  ghost predicate Far(a: Json) { forall x | x in DoublesOf(a) :: Abs(x) > LIMIT }

  /** The doubles of three trees chain. */
  ghost predicate DoublesChain(a: Json, b: Json, c: Json) {
    forall x, y, z :: x in DoublesOf(a) && y in DoublesOf(b) && z in DoublesOf(c) && Near(x, y) && Near(y, z)
                      ==> Near(x, z)
  }

  /** Where doubles chain, trees do. */
  lemma {:induction false} TreesChain(a: Json, b: Json, c: Json)
    requires DoublesChain(a, b, c) && Equal(a, b) && Equal(b, c)
    ensures Equal(a, c)
    decreases a, 1
  {
    hide Near;
    match a
    case Double(x) => assert x in DoublesOf(a) && b.d in DoublesOf(b) && c.d in DoublesOf(c);
    case Arr(es) =>
      forall e | e in es ensures Occurs(e, c.elems) {
        var i :| 0 <= i < |es| && es[i] == e;
        assert Occurs(e, b.elems);
        var j :| 0 <= j < |b.elems| && Equal(e, b.elems[j]);
        assert b.elems[j] in b.elems && Occurs(b.elems[j], c.elems);
        var k :| 0 <= k < |c.elems| && Equal(b.elems[j], c.elems[k]);
        ElemDoubles(es, i);
        ElemDoubles(b.elems, j);
        ElemDoubles(c.elems, k);
        TreesChain(e, b.elems[j], c.elems[k]);
      }
    case Obj(ms) => ObjectsChain(ms, b, c);
    case _ =>
  }

  lemma {:induction false} ObjectsChain(ms: seq<Member>, b: Json, c: Json)
    requires DoublesChain(Obj(ms), b, c) && Equal(Obj(ms), b) && Equal(b, c)
    ensures Equal(Obj(ms), c)
    decreases Obj(ms), 0
  {
    hide Near;
    forall m | m in ms ensures Agrees(m, c.members) {
      var i :| 0 <= i < |ms| && ms[i] == m;
      assert Agrees(m, b.members);
      var j := Find(b.members, m.key);
      assert b.members[j] in b.members && Agrees(b.members[j], c.members);
      var k := Find(c.members, m.key);
      MemberDoubles(ms, i);
      MemberDoubles(b.members, j);
      MemberDoubles(c.members, k);
      TreesChain(m.value, b.members[j].value, c.members[k].value);
    }
  }

  lemma FarChains(a: Json, b: Json, c: Json)
    requires Far(a) && Finite(a) && Finite(b)
    ensures DoublesChain(a, b, c)
  {
    hide Near, Representable;
    forall x, y, z | x in DoublesOf(a) && y in DoublesOf(b) && z in DoublesOf(c) && Near(x, y) && Near(y, z)
      ensures Near(x, z)
    {
      FarAlone(x, y);
    }
  }

  /** A double that two steps carry out of reach of all the others breaks the chain. */
  lemma StepsBreak(a: Json, f: real -> real, g: real -> real, x: real)
    requires Keyed(a) && x in DoublesOf(a)
    requires forall w | w in DoublesOf(a) :: Near(w, f(w)) && Near(f(w), g(w)) && !Near(x, g(w))
    ensures Equal(a, Map(a, f)) && Equal(Map(a, f), Map(a, g)) && !Equal(a, Map(a, g))
  {
    hide Near;
    var same := (y: real) => y;
    MapNothing(a, same);
    MapsEqual(a, same, f);
    MapsEqual(a, f, g);
    if Equal(a, Map(a, g)) {
      NearDouble(a, Map(a, g), x);
      var y :| y in DoublesOf(Map(a, g)) && Near(x, y);
      MapDouble(a, g, y);
      assert false;
    }
  }

  lemma MapFinite(a: Json, f: real -> real)
    requires forall w | w in DoublesOf(a) :: Representable(f(w))
    ensures Finite(Map(a, f))
  {
    hide Representable;
    forall y | y in DoublesOf(Map(a, f)) ensures Representable(y) { MapDouble(a, f, y); }
  }

  predicate Within(x: real, low: real, high: real) { low <= x <= high }

  /** The lowest, or the highest, of the numbers in a range. */
  lemma {:induction false} Extreme(xs: seq<real>, low: real, high: real, lowest: bool) returns (x: real)
    requires exists y :: y in xs && Within(y, low, high)
    ensures x in xs && Within(x, low, high)
    ensures forall y :: y in xs && Within(y, low, high) ==> if lowest then x <= y else y <= x
  {
    var init, last := xs[..|xs| - 1], xs[|xs| - 1];
    assert xs == init + [last];
    if y :| y in init && Within(y, low, high) {
      x := Extreme(init, low, high, lowest);
      if Within(last, low, high) && (if lowest then last < x else x < last) { x := last; }
    } else {
      x := last;
    }
  }

  predicate MovesUp(w: real) { -LIMIT <= w <= LIMIT - 8.0 * STEP }
  function Raised(w: real): real { if MovesUp(w) then Up(w) else w }
  function RaisedAgain(w: real): real { if MovesUp(w) then UpAgain(w) else w }

  lemma RaisedFacts(w: real, x: real)
    requires Representable(w) && Representable(x) && -LIMIT <= x <= LIMIT - 16.0 * STEP
    requires -LIMIT <= w <= LIMIT - 16.0 * STEP ==> x <= w
    ensures Near(w, Raised(w)) && Near(Raised(w), RaisedAgain(w)) && !Near(x, RaisedAgain(w))
    ensures Representable(Raised(w)) && Representable(RaisedAgain(w))
  {
    UpSteps(w);
    if MovesUp(w) { UpIsDouble(w); }
    hide Up, UpAgain, Representable, NotANumber, Near;
    NumbersAreNumbers(x);
    NumbersAreNumbers(RaisedAgain(w));
    NearEnough(w, Raised(w));
    NearEnough(Raised(w), RaisedAgain(w));
    if w < -LIMIT {
      FarAlone(w, x);
    } else {
      TooFar(x, RaisedAgain(w));
    }
  }

  function Lowered(w: real): real { if Abs(w) <= LIMIT then -Up(-w) else w }
  function LoweredAgain(w: real): real { if Abs(w) <= LIMIT then -UpAgain(-w) else w }

  lemma LoweredFacts(w: real, x: real)
    requires Representable(w) && Representable(x) && Abs(x) <= LIMIT
    requires Abs(w) <= LIMIT ==> LIMIT - 16.0 * STEP < w <= x
    ensures Near(w, Lowered(w)) && Near(Lowered(w), LoweredAgain(w)) && !Near(x, LoweredAgain(w))
    ensures Representable(Lowered(w)) && Representable(LoweredAgain(w))
  {
    UpSteps(-w);
    NegatedIsDouble(w);
    if Abs(w) <= LIMIT {
      UpIsDouble(-w);
      NegatedIsDouble(Up(-w));
      NegatedIsDouble(UpAgain(-w));
    }
    hide Up, UpAgain, Representable, NotANumber, Near;
    NumbersAreNumbers(x);
    NumbersAreNumbers(LoweredAgain(w));
    NearEnough(w, Lowered(w));
    NearEnough(Lowered(w), LoweredAgain(w));
    if Abs(w) > LIMIT {
      FarAlone(w, x);
    } else {
      TooFar(x, LoweredAgain(w));
    }
  }

  lemma SmallDoesNotChain(a: Json) returns (b: Json, c: Json)
    requires Keyed(a) && Finite(a) && !Far(a)
    ensures Finite(b) && Finite(c) && Equal(a, b) && Equal(b, c) && !Equal(a, c)
  {
    hide Near, Up, UpAgain, Representable, Equal;
    var xs := DoublesOf(a);
    if y :| y in xs && Within(y, -LIMIT, LIMIT - 16.0 * STEP) {
      var x := Extreme(xs, -LIMIT, LIMIT - 16.0 * STEP, true);
      forall w | w in xs
        ensures Near(w, Raised(w)) && Near(Raised(w), RaisedAgain(w)) && !Near(x, RaisedAgain(w))
        ensures Representable(Raised(w)) && Representable(RaisedAgain(w))
      {
        assert Within(w, -LIMIT, LIMIT - 16.0 * STEP) ==> x <= w;
        RaisedFacts(w, x);
      }
      b, c := Map(a, w => Raised(w)), Map(a, w => RaisedAgain(w));
      StepsBreak(a, w => Raised(w), w => RaisedAgain(w), x);
      MapFinite(a, w => Raised(w));
      MapFinite(a, w => RaisedAgain(w));
    } else {
      var y :| y in xs && Abs(y) <= LIMIT;
      assert Within(y, -LIMIT, LIMIT);
      var x := Extreme(xs, -LIMIT, LIMIT, false);
      forall w | w in xs
        ensures Near(w, Lowered(w)) && Near(Lowered(w), LoweredAgain(w)) && !Near(x, LoweredAgain(w))
        ensures Representable(Lowered(w)) && Representable(LoweredAgain(w))
      {
        assert !Within(w, -LIMIT, LIMIT - 16.0 * STEP);
        assert Within(w, -LIMIT, LIMIT) ==> w <= x;
        LoweredFacts(w, x);
      }
      b, c := Map(a, w => Lowered(w)), Map(a, w => LoweredAgain(w));
      StepsBreak(a, w => Lowered(w), w => LoweredAgain(w), x);
      MapFinite(a, w => Lowered(w));
      MapFinite(a, w => LoweredAgain(w));
    }
  }

  /** Equality chains from a tree of finite doubles if and only if each of them is larger than 2 to the 29th. */
  lemma TransitiveExact(a: Json)
    requires Keyed(a) && Finite(a)
    ensures Chains(a) <==> Far(a)
  {
    if Far(a) {
      forall b, c | Finite(b) && Finite(c) && Equal(a, b) && Equal(b, c) ensures Equal(a, c) {
        FarChains(a, b, c);
        TreesChain(a, b, c);
      }
    } else {
      var b, c := SmallDoesNotChain(a);
    }
  }

  // ----- with NaN about -----

  lemma NearNaN(x: real)
    ensures Near(x, NotANumber()) && Near(NotANumber(), x)
  {
  }

  /** A finite double that is not near this one. */
  lemma Elsewhere(x: real) returns (z: real)
    requires x != NotANumber()
    ensures Representable(z) && !Near(x, z)
  {
    Powers2();
    z := if Abs(x) > LIMIT then 0.0 else 2.0 * LIMIT;
    assert Scaled(0, 0) == 0.0 && Scaled(4, 28) == 2.0 * LIMIT;
    hide Near;
    NumbersAreNumbers(z);
    TooFar(x, z);
  }

  /**
   NaN is equal to every double. Compared with all trees, NaN and infinities among their doubles, equality chains from
   a tree if and only if no double in it is a number.
   */
  lemma TransitiveAmongAll(a: Json)
    requires Keyed(a) && AllDoubles(a)
    ensures (forall b, c :: AllDoubles(b) && AllDoubles(c) && Equal(a, b) && Equal(b, c) ==> Equal(a, c))
            <==> forall x | x in DoublesOf(a) :: x == NotANumber()
  {
    hide Near, Representable, NotANumber;
    if forall x | x in DoublesOf(a) :: x == NotANumber() {
      forall b, c | Equal(a, b) && Equal(b, c) ensures Equal(a, c) {
        forall z ensures Near(NotANumber(), z) { NearNaN(z); }
        TreesChain(a, b, c);
      }
    } else {
      var x :| x in DoublesOf(a) && x != NotANumber();
      NumberBreaks(a, x);
    }
  }

  lemma NumberBreaks(a: Json, x: real)
    requires Keyed(a) && x in DoublesOf(a) && x != NotANumber()
    ensures exists b, c :: AllDoubles(b) && AllDoubles(c) && Equal(a, b) && Equal(b, c) && !Equal(a, c)
  {
    hide Near, Representable, NotANumber;
    var z := Elsewhere(x);
    var f, g := (w: real) => NotANumber(), (w: real) => z;
    forall w ensures Near(w, f(w)) && Near(f(w), g(w)) {
      NearNaN(w);
      NearNaN(z);
    }
    StepsBreak(a, f, g, x);
    var b, c := Map(a, f), Map(a, g);
    forall y | y in DoublesOf(b) ensures y == NotANumber() { MapDouble(a, f, y); }
    forall y | y in DoublesOf(c) ensures Representable(y) { MapDouble(a, g, y); }
    assert AllDoubles(b) && AllDoubles(c);
  }
}
