/**
 The client side of src/json_rpc.c: pending calls are kept under their id, or under the array of ids of a
 batch, and a response finds its call by `json_equals`. With it, whole exchanges between client and server.
 */
module Client {
  import opened Values
  import opened Equality
  import opened Messages

  /** `json_rpc_result_entry` */
  datatype Entry = Entry(id: Json, callback: nat)

  function FindEntry(cbs: seq<Entry>, id: Json): (k: nat)
    ensures k <= |cbs|
    ensures k < |cbs| ==> Equal(cbs[k].id, id)
    ensures forall j :: 0 <= j < k ==> !Equal(cbs[j].id, id)
  {
    if cbs == [] then 0 else if Equal(cbs[0].id, id) then 0 else 1 + FindEntry(cbs[1..], id)
  }

  /** `json_rpc_preprocess_request`: None when the request has no id. */
  function Register(cbs: seq<Entry>, req: Json, callback: nat): Option<seq<Entry>> {
    match IdOf(req)
    case None => None
    case Some(id) =>
      var k := FindEntry(cbs, id);
      Some(if k < |cbs| then cbs[k := Entry(cbs[k].id, callback)] else [Entry(id, callback)] + cbs)
  }

  /** `json_rpc_process_response`: the registry afterwards, and the callback called, if any. */
  function Respond(cbs: seq<Entry>, resp: Json): (seq<Entry>, Option<nat>) {
    if !IsResponse(resp) then (cbs, None)
    else match IdOf(resp)
      case None => (cbs, None)
      case Some(id) =>
        var k := FindEntry(cbs, id);
        if k < |cbs| then (cbs[..k] + cbs[k + 1..], Some(cbs[k].callback)) else (cbs, None)
  }

  class PendingCalls {
    var resultCbs: seq<Entry>

    constructor ()
      ensures resultCbs == []
    {
      resultCbs := [];
    }

    /** `json_rpc_preprocess_request` */
    method Preprocess(req: Json, callback: nat) returns (ret: int)
      modifies this
      ensures ret == if IdOf(req) == None then -1 else 0
      ensures var r := Register(old(resultCbs), req, callback);
              resultCbs == if r == None then old(resultCbs) else r.value
    {
      var id := GetId(req);
      if id == None { return -1; }
      var p := 0;
      while p < |resultCbs|
        invariant 0 <= p <= |resultCbs| && resultCbs == old(resultCbs)
        invariant forall j :: 0 <= j < p ==> !Equal(resultCbs[j].id, id.value)
      {
        var same := JsonEquals(resultCbs[p].id, id.value);
        if same {
          FirstMatch(resultCbs, id.value, p);
          resultCbs := resultCbs[p := Entry(resultCbs[p].id, callback)];
          return 0;
        }
        p := p + 1;
      }
      resultCbs := [Entry(id.value, callback)] + resultCbs;
      return 0;
    }

    /** `json_rpc_process_response`; the result stands for the call of the callback */
    method ProcessResponse(resp: Json) returns (called: Option<nat>)
      modifies this
      ensures (resultCbs, called) == Respond(old(resultCbs), resp)
    {
      var ok := JsonRpcIsResponse(resp);
      if !ok { return None; }
      var id := GetId(resp);
      if id == None { return None; }
      var pos := 0;
      while pos < |resultCbs|
        invariant 0 <= pos <= |resultCbs| && resultCbs == old(resultCbs)
        invariant forall j :: 0 <= j < pos ==> !Equal(resultCbs[j].id, id.value)
      {
        var same := JsonEquals(resultCbs[pos].id, id.value);
        if same {
          FirstMatch(resultCbs, id.value, pos);
          called := Some(resultCbs[pos].callback);
          resultCbs := resultCbs[..pos] + resultCbs[pos + 1..];
          return;
        }
        pos := pos + 1;
      }
      return None;
    }
  }

  lemma FirstMatch(cbs: seq<Entry>, id: Json, k: nat)
    requires k < |cbs| && Equal(cbs[k].id, id) && forall j :: 0 <= j < k ==> !Equal(cbs[j].id, id)
    ensures FindEntry(cbs, id) == k
  {
  }

  // ----- the registry -----

  /** Trees on which `json_equals` is an equivalence. */
  ghost predicate Proper(id: Json) { DoubleFree(id) && Keyed(id) && NoTwins(id) }

  /** No two pending calls can be taken for each other. */
  ghost predicate Separate(cbs: seq<Entry>) {
    && (forall i :: 0 <= i < |cbs| ==> Proper(cbs[i].id))
    && forall i, j :: 0 <= i < |cbs| && 0 <= j < |cbs| && i != j ==> !Equal(cbs[i].id, cbs[j].id)
  }

  /**
   What registering leaves alone. Without an entry with an equal id a new one goes in front of all the others, which
   stay in order. With one, no id changes, and no callback but that of the first such entry.
   */
  lemma RegisterKeeps(cbs: seq<Entry>, req: Json, callback: nat)
    requires IdOf(req).Some?
    ensures var id, r := IdOf(req).value, Register(cbs, req, callback).value;
            (forall e | e in cbs :: !Equal(e.id, id)) ==>
              && |r| == |cbs| + 1 && r[0] == Entry(id, callback)
              && forall j :: 0 <= j < |cbs| ==> r[j + 1] == cbs[j]
    ensures var id, r := IdOf(req).value, Register(cbs, req, callback).value;
            (exists e :: e in cbs && Equal(e.id, id)) ==>
              && |r| == |cbs| && (forall j :: 0 <= j < |cbs| ==> r[j].id == cbs[j].id)
              && exists k ::
                   && 0 <= k < |cbs| && Equal(cbs[k].id, id) && r[k].callback == callback
                   && (forall j :: 0 <= j < k ==> !Equal(cbs[j].id, id))
                   && forall j :: 0 <= j < |cbs| && j != k ==> r[j] == cbs[j]
  {
    var id := IdOf(req).value;
    var k := FindEntry(cbs, id);
    hide *;
    Registers(cbs, req, callback);
    FoundFirst(cbs, id);
  }

  lemma FoundFirst(cbs: seq<Entry>, id: Json)
    ensures var k := FindEntry(cbs, id);
            if k < |cbs| then cbs[k] in cbs && Equal(cbs[k].id, id) && forall j :: 0 <= j < k ==> !Equal(cbs[j].id, id)
            else k == |cbs| && forall e | e in cbs :: !Equal(e.id, id)
  {
    hide Equal;
  }

  /** The entries with other ids, in order. */
  function Others(cbs: seq<Entry>, id: Json): seq<Entry> {
    if cbs == [] then []
    else Others(cbs[..|cbs| - 1], id) + if Equal(cbs[|cbs| - 1].id, id) then [] else [cbs[|cbs| - 1]]
  }

  lemma {:induction false} AllOthers(cbs: seq<Entry>, id: Json)
    requires forall j :: 0 <= j < |cbs| ==> !Equal(cbs[j].id, id)
    ensures Others(cbs, id) == cbs
  {
    if cbs != [] {
      var init, last := cbs[..|cbs| - 1], cbs[|cbs| - 1];
      assert !Equal(last.id, id) && cbs == init + [last] && Others(cbs, id) == Others(init, id) + [last];
      assert forall j :: 0 <= j < |init| ==> !Equal(init[j].id, id);
      hide *;
      AllOthers(init, id);
    }
  }

  lemma {:induction false} OthersConcat(us: seq<Entry>, vs: seq<Entry>, id: Json)
    ensures Others(us + vs, id) == Others(us, id) + Others(vs, id)
  {
    hide Equal;
    if vs == [] {
      assert us + vs == us;
    } else {
      assert (us + vs)[..|us + vs| - 1] == us + vs[..|vs| - 1];
      OthersConcat(us, vs[..|vs| - 1], id);
    }
  }

  lemma OthersAround(us: seq<Entry>, e: Entry, vs: seq<Entry>, id: Json)
    ensures Others(us + [e] + vs, id)
            == Others(us, id) + (if Equal(e.id, id) then [] else [e]) + Others(vs, id)
  {
    OneOther(e, id);
    hide *;
    OthersConcat(us + [e], vs, id);
    OthersConcat(us, [e], id);
  }

  lemma OneOther(e: Entry, id: Json)
    ensures Others([e], id) == if Equal(e.id, id) then [] else [e]
  {
    assert [e][..0] == [];
  }

  /** Taking out the one entry with an equal id leaves the others. */
  lemma OthersWithout(cbs: seq<Entry>, id: Json, k: nat)
    requires k < |cbs| && Equal(cbs[k].id, id)
    requires forall j :: 0 <= j < |cbs| && j != k ==> !Equal(cbs[j].id, id)
    ensures Others(cbs, id) == cbs[..k] + cbs[k + 1..]
  {
    hide *;
    var us, e, vs := cbs[..k], cbs[k], cbs[k + 1..];
    SidesOther(cbs, id, k);
    OthersAround(us, e, vs, id);
    AllOthers(us, id);
    AllOthers(vs, id);
    assert us + [] + vs == us + vs;
  }

  lemma SidesOther(cbs: seq<Entry>, id: Json, k: nat)
    requires k < |cbs| && forall j :: 0 <= j < |cbs| && j != k ==> !Equal(cbs[j].id, id)
    ensures var us, vs := cbs[..k], cbs[k + 1..];
            && cbs == us + [cbs[k]] + vs
            && (forall j :: 0 <= j < |us| ==> !Equal(us[j].id, id))
            && forall j :: 0 <= j < |vs| ==> !Equal(vs[j].id, id)
  {
    hide Equal;
    var vs := cbs[k + 1..];
    forall j | 0 <= j < |vs| ensures !Equal(vs[j].id, id) { assert vs[j] == cbs[k + 1 + j]; }
  }

  /** Registering changes nothing for the others. */
  lemma RegisterOthers(cbs: seq<Entry>, req: Json, callback: nat)
    requires IdOf(req).Some? && Keyed(IdOf(req).value)
    ensures Others(Register(cbs, req, callback).value, IdOf(req).value) == Others(cbs, IdOf(req).value)
  {
    var id := IdOf(req).value;
    var k := FindEntry(cbs, id);
    Reflexive(id);
    hide *;
    Registers(cbs, req, callback);
    if k < |cbs| {
      ReplacedOthers(cbs, k, callback, id);
    } else {
      AddedOthers(cbs, Entry(id, callback), id);
    }
  }

  lemma Registers(cbs: seq<Entry>, req: Json, callback: nat)
    requires IdOf(req).Some?
    ensures var id := IdOf(req).value; var k := FindEntry(cbs, id);
            && (k < |cbs| ==> Equal(cbs[k].id, id))
            && Register(cbs, req, callback)
               == Some(if k < |cbs| then cbs[k := Entry(cbs[k].id, callback)] else [Entry(id, callback)] + cbs)
  {
    hide IdOf, Equal;
  }

  lemma ReplacedOthers(cbs: seq<Entry>, k: nat, callback: nat, id: Json)
    requires k < |cbs| && Equal(cbs[k].id, id)
    ensures Others(cbs[k := Entry(cbs[k].id, callback)], id) == Others(cbs, id)
  {
    var us, vs, e := cbs[..k], cbs[k + 1..], Entry(cbs[k].id, callback);
    assert cbs == us + [cbs[k]] + vs && cbs[k := e] == us + [e] + vs;
    hide *;
    OthersAround(us, cbs[k], vs, id);
    OthersAround(us, e, vs, id);
  }

  lemma AddedOthers(cbs: seq<Entry>, e: Entry, id: Json)
    requires Equal(e.id, id)
    ensures Others([e] + cbs, id) == Others(cbs, id)
  {
    OneOther(e, id);
    hide *;
    OthersConcat([e], cbs, id);
  }

  lemma StaysSeparate(cbs: seq<Entry>, req: Json, callback: nat)
    requires Separate(cbs) && IdOf(req).Some? && Proper(IdOf(req).value)
    ensures Separate(Register(cbs, req, callback).value)
  {
    var id := IdOf(req).value;
    var k, r := FindEntry(cbs, id), Register(cbs, req, callback).value;
    Registers(cbs, req, callback);
    hide FindEntry, IdOf, Equal, Proper, Register;
    if k == |cbs| { AddedSeparate(cbs, Entry(id, callback)); }
  }

  lemma AddedSeparate(cbs: seq<Entry>, e: Entry)
    requires Separate(cbs) && Proper(e.id) && forall j :: 0 <= j < |cbs| ==> !Equal(cbs[j].id, e.id)
    ensures Separate([e] + cbs)
  {
    hide Equal, Proper;
    var r := [e] + cbs;
    forall i, j | 0 <= i < |r| && 0 <= j < |r| && i != j ensures !Equal(r[i].id, r[j].id) {
      if i == 0 {
        NotTurned(e.id, cbs[j - 1].id);
      } else if j > 0 {
        assert r[i] == cbs[i - 1] && r[j] == cbs[j - 1];
      }
    }
  }

  lemma NotTurned(a: Json, b: Json)
    requires Proper(a) && !Equal(b, a)
    ensures !Equal(a, b)
  {
    if Equal(a, b) { Symmetric(a, b); }
  }

  lemma NewEntry(cbs: seq<Entry>, req: Json, callback: nat)
    requires IdOf(req).Some? && Keyed(IdOf(req).value)
    ensures var r := Register(cbs, req, callback).value; var k := FindEntry(r, IdOf(req).value);
            k < |r| && r[k].callback == callback
  {
    var id := IdOf(req).value;
    var k, r := FindEntry(cbs, id), Register(cbs, req, callback).value;
    Reflexive(id);
    hide IdOf, Equal, FindEntry;
    if k < |cbs| { FirstMatch(r, id, k); } else { FirstMatch(r, id, 0); }
  }

  /** Registering keeps pending calls apart, and leaves exactly one entry for the request, with its callback. */
  lemma RegisterSeparate(cbs: seq<Entry>, req: Json, callback: nat)
    requires Separate(cbs) && IdOf(req).Some? && Proper(IdOf(req).value)
    ensures var r := Register(cbs, req, callback); r.Some? && Separate(r.value)
    ensures var r := Register(cbs, req, callback).value; var k := FindEntry(r, IdOf(req).value);
            k < |r| && r[k].callback == callback
    ensures var id, r := IdOf(req).value, Register(cbs, req, callback).value;
            && |r| == (if exists e :: e in cbs && Equal(e.id, id) then |cbs| else |cbs| + 1)
            && Others(r, id) == Others(cbs, id)
  {
    assert Keyed(IdOf(req).value) && Register(cbs, req, callback).Some?;
    hide *;
    RegisterKeeps(cbs, req, callback);
    RegisterOthers(cbs, req, callback);
    StaysSeparate(cbs, req, callback);
    NewEntry(cbs, req, callback);
  }

  /** A response whose id equals that of a pending call reaches this call and no other, and only once. */
  lemma ResponseFindsCall(cbs: seq<Entry>, k: nat, resp: Json)
    requires Separate(cbs) && k < |cbs|
    requires IsResponse(resp) && IdOf(resp).Some? && Equal(cbs[k].id, IdOf(resp).value)
    ensures Respond(cbs, resp) == (cbs[..k] + cbs[k + 1..], Some(cbs[k].callback))
    ensures Respond(cbs[..k] + cbs[k + 1..], resp) == (cbs[..k] + cbs[k + 1..], None)
  {
    var id, rest := IdOf(resp).value, cbs[..k] + cbs[k + 1..];
    OneEqual(cbs, k, id);
    hide Equal, IdOf, IsResponse, FindEntry, Separate;
    FirstMatch(cbs, id, k);
    assert forall f :: 0 <= f < |rest| ==> rest[f] == cbs[if f < k then f else f + 1];
    NoMatch(rest, id);
  }

  lemma NoMatch(cbs: seq<Entry>, id: Json)
    requires forall j :: 0 <= j < |cbs| ==> !Equal(cbs[j].id, id)
    ensures FindEntry(cbs, id) == |cbs|
  {
  }

  /** An id equal to that of one pending call is not equal to that of another. */
  lemma OneEqual(cbs: seq<Entry>, k: nat, id: Json)
    requires Separate(cbs) && k < |cbs| && Equal(cbs[k].id, id)
    ensures forall j :: 0 <= j < |cbs| && j != k ==> !Equal(cbs[j].id, id)
  {
    Symmetric(cbs[k].id, id);
    forall j | 0 <= j < |cbs| && j != k ensures !Equal(cbs[j].id, id) {
      if Equal(cbs[j].id, id) { Transitive(cbs[j].id, id, cbs[k].id); }
    }
  }

  lemma {:induction false} OthersAre(cbs: seq<Entry>, id: Json, e: Entry)
    ensures e in Others(cbs, id) <==> e in cbs && !Equal(e.id, id)
  {
    hide Equal;
    if cbs != [] {
      var init, last := cbs[..|cbs| - 1], cbs[|cbs| - 1];
      assert cbs == init + [last];
      OthersAre(init, id, e);
    }
  }

  /** Only one entry goes: with the pending call for the id removed, all other calls are still pending, in order. */
  lemma OthersStay(cbs: seq<Entry>, k: nat, id: Json)
    requires Separate(cbs) && k < |cbs| && Equal(cbs[k].id, id)
    ensures cbs[..k] + cbs[k + 1..] == Others(cbs, id)
  {
    hide *;
    OneEqual(cbs, k, id);
    OthersWithout(cbs, id, k);
  }

  /** The other way: an entry is removed only for a response with an equal id, so nothing else is lost. */
  lemma UnmatchedResponseIgnored(cbs: seq<Entry>, resp: Json)
    requires IdOf(resp).Some? && forall k :: 0 <= k < |cbs| ==> !Equal(cbs[k].id, IdOf(resp).value)
    ensures Respond(cbs, resp) == (cbs, None)
  {
  }

  /** Nor is anything called or removed for what is no response, or has no id. */
  lemma OthersIgnored(cbs: seq<Entry>, resp: Json)
    requires !IsResponse(resp) || IdOf(resp) == None
    ensures Respond(cbs, resp) == (cbs, None)
  {
  }

  /**
   When an entry can take the response to another request: an id b that finds the entry of a, although a, looked for,
   does not find the entry of b, so that both are pending. There is one exactly when some array in a has equal entries.
   */
  lemma ConfusedExactly(a: Json, callback: nat)
    requires DoubleFree(a) && Keyed(a)
    ensures (exists b ::
               && Keyed(b) && DoubleFree(b)
               && FindEntry([Entry(a, callback)], b) == 0 && FindEntry([Entry(b, 0)], a) == 1)
            <==> !NoTwins(a)
  {
    SymmetricExact(a);
    forall b ensures FindEntry([Entry(a, callback)], b) == (if Equal(a, b) then 0 else 1) { FindOne(a, callback, b); }
    forall b ensures FindEntry([Entry(b, 0)], a) == (if Equal(b, a) then 0 else 1) { FindOne(b, 0, a); }
  }

  lemma FindOne(a: Json, callback: nat, b: Json)
    ensures FindEntry([Entry(a, callback)], b) == if Equal(a, b) then 0 else 1
  {
    assert [Entry(a, callback)][1..] == [];
  }

  function Batch(first: Int32, second: Int32): Json {
    Arr([Obj([Member("id", Int(first))]), Obj([Member("id", Int(second))])])
  }

  lemma BatchId(first: Int32, second: Int32)
    ensures IdOf(Batch(first, second)) == Some(Arr([Int(first), Int(second)]))
  {
    var a, b := Obj([Member("id", Int(first))]), Obj([Member("id", Int(second))]);
    assert Get(a, "id") == Some(Int(first)) && Get(b, "id") == Some(Int(second));
    assert Batch(first, second) == Arr([a, b]);
    hide Get, Batch;
    assert [a, b][..1] == [a] && [a][..0] == [] && Ids([]) == [];
    assert Ids([a]) == [] + [Int(first)] && Ids([a, b]) == [Int(first)] + [Int(second)];
    assert Ids([a, b]) == [Int(first), Int(second)] != [];
  }

  /**
   A batch with ids 1 and 2 is registered, then one with the id 1 twice: the second takes the first one's response.
   */
  lemma DuplicateIdsConfuse(first: nat, second: nat)
    ensures var one := Register([], Batch(1, 2), first);
            && one.Some?
            && var both := Register(one.value, Batch(1, 1), second);
               && both == Some([Entry(Arr([Int(1), Int(1)]), second), Entry(Arr([Int(1), Int(2)]), first)])
               && FindEntry(both.value, Arr([Int(1), Int(2)])) == 0
  {
    BatchId(1, 2);
    BatchId(1, 1);
    var twice, other := Arr([Int(1), Int(1)]), Arr([Int(1), Int(2)]);
    OneWayEqual();
    hide Batch, Get, Equal;
    FindOne(other, first, twice);
    var one := [Entry(other, first)];
    assert Register([], Batch(1, 2), first) == Some([Entry(other, first)] + []);
    assert one == [Entry(other, first)] + [];
    assert Register(one, Batch(1, 1), second) == Some([Entry(twice, second)] + one);
    assert [Entry(twice, second)] + one == [Entry(twice, second), Entry(other, first)];
    assert FindEntry([Entry(twice, second), Entry(other, first)], other) == 0;
  }

  lemma OneWayEqual()
    ensures var twice, other := Arr([Int(1), Int(1)]), Arr([Int(1), Int(2)]);
            Equal(twice, other) && !Equal(other, twice)
  {
    var twice, other := Arr([Int(1), Int(1)]), Arr([Int(1), Int(2)]);
    assert Equal(Int(1), other.elems[0]);
    assert Occurs(Int(1), other.elems);
    assert !Equal(Int(2), Int(1)) && !Occurs(Int(2), twice.elems) && other.elems[1] == Int(2);
  }

  // ----- ids of a batch and of its reply -----

  /** The ids in the batch are trees `json_equals` can tell apart. */
  ghost predicate DistinctIds(calls: seq<Json>) {
    && (forall c | c in calls :: Get(c, "id").Some? ==> Proper(Get(c, "id").value))
    && forall p, q ::
         && 0 <= p < |calls| && 0 <= q < |calls| && p != q
         && Get(calls[p], "id").Some? && Get(calls[q], "id").Some?
         ==> !Equal(Get(calls[p], "id").value, Get(calls[q], "id").value)
  }

  lemma {:induction false} IdsFrom(calls: seq<Json>, x: Json)
    ensures x in Ids(calls) <==> exists p :: 0 <= p < |calls| && Get(calls[p], "id") == Some(x)
  {
    if calls != [] {
      var init := calls[..|calls| - 1];
      IdsFrom(init, x);
      assert Get(calls[|calls| - 1], "id") == Some(x) ==> x in Ids(calls);
      if exists p :: 0 <= p < |calls| && Get(calls[p], "id") == Some(x) {
        var p :| 0 <= p < |calls| && Get(calls[p], "id") == Some(x);
        if p < |init| { assert init[p] == calls[p]; }
      }
      if x in Ids(init) {
        var p :| 0 <= p < |init| && Get(init[p], "id") == Some(x);
        assert calls[p] == init[p];
      }
    }
  }

  lemma {:induction false} IdsProper(calls: seq<Json>)
    requires DistinctIds(calls)
    ensures Proper(Arr(Ids(calls)))
  {
    if calls != [] {
      var init, c := calls[..|calls| - 1], calls[|calls| - 1];
      assert forall p :: 0 <= p < |init| ==> init[p] == calls[p];
      IdsProper(init);
      if Get(c, "id").Some? {
        var x, xs := Get(c, "id").value, Ids(init);
        assert Ids(calls) == xs + [x] && c in calls;
        forall i | 0 <= i < |xs| ensures !Equal(xs[i], x) && !Equal(x, xs[i]) {
          IdsFrom(init, xs[i]);
          var p :| 0 <= p < |init| && Get(init[p], "id") == Some(xs[i]);
          assert init[p] == calls[p];
        }
        ProperGrows(xs, x);
      }
    }
  }

  lemma ProperGrows(xs: seq<Json>, x: Json)
    requires Proper(Arr(xs)) && Proper(x) && forall i :: 0 <= i < |xs| ==> !Equal(xs[i], x) && !Equal(x, xs[i])
    ensures Proper(Arr(xs + [x]))
  {
    forall e | e in xs + [x] ensures Proper(e) { assert e in xs || e == x; }
  }
}
