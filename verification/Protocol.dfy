/**
 The server side of src/json_rpc.c as a state machine. Calls and returns go through an event queue that the
 event loop may empty in any order; all calls of a batch share one request record.
 */
module Protocol {
  import opened Values
  import opened Messages

  /** `struct json_rpc_request`; `batch` tells `batched_result_cb` from `single_result_cb`. */
  datatype Request = Request(
    batch: bool, results: seq<Json>, resultCount: nat, waiting: nat, methodId: Option<Json>, arg: nat)

  /** `struct deferred_call_data`: a handler to run, or `return_cb`. */
  datatype Event =
    | Invoke(handler: nat, req: Option<nat>, params: Option<Json>, savedId: Option<Json>)
    | Result(target: nat, res: Option<Json>, savedId: Option<Json>)

  /** `json_rpc_list_entry` */
  datatype Method = Method(name: string, handler: nat)

  /** A call of `user_cb`: for which request (None when none was made), with which argument and object. */
  datatype Delivery = Delivery(req: Option<nat>, arg: nat, obj: Option<Json>)

  /**
   The engine and what surrounds it. `requests` holds the records that are allocated, `next` the number of
   the next one; `owing[r]` counts the handlers that were started for r and have not yet returned.
   */
  datatype Server = Server(
    methods: seq<Method>, requests: map<nat, Request>, next: nat,
    queue: seq<Event>, owing: multiset<nat>, deliveries: seq<Delivery>)

  // ----- json_rpc_process_request -----

  /** `lookup_entry` */
  function FindMethod(methods: seq<Method>, name: string): Option<nat> {
    if methods == [] then None
    else if methods[0].name == name then Some(methods[0].handler)
    else FindMethod(methods[1..], name)
  }

  /** `add_method_to_queue` takes a snapshot of the request's current id. */
  function Enqueue(s: Server, e: Event): Server { s.(queue := s.queue + [e]) }

  function SetId(s: Server, r: nat, id: Option<Json>): Server
    requires r in s.requests
  {
    s.(requests := s.requests[r := s.requests[r].(methodId := id)])
  }

  function MethodName(call: Json): string {
    if Get(call, "method").Some? && Get(call, "method").value.Str? then Get(call, "method").value.s else ""
  }

  /** `dispatch_call` */
  function Dispatch(s: Server, r: nat, call: Json): Server
    requires r in s.requests
  {
    match CallTypeOf(call)
    case InvalidCall => Enqueue(s, Result(r, InvalidReply(), s.requests[r].methodId))
    case NotificationCall =>
      (match FindMethod(s.methods, MethodName(call))
       case None => s
       case Some(h) => Enqueue(s, Invoke(h, None, Get(call, "params"), None)))
    case RequestCall =>
      var id := Get(call, "id").value;
      var t := SetId(s, r, Some(id));
      match FindMethod(s.methods, MethodName(call))
      case None => Enqueue(t, Result(r, NotFoundReply(id), Some(id)))
      case Some(h) => Enqueue(t, Invoke(h, Some(r), Get(call, "params"), Some(id)))
  }

  function Expected(call: Json): nat { if CallTypeOf(call) == NotificationCall then 0 else 1 }

  /** The loop of `process_batched_call`. */
  function DispatchAll(s: Server, r: nat, calls: seq<Json>): (t: Server)
    requires r in s.requests
    ensures r in t.requests
  {
    if calls == [] then s
    else
      var t := Dispatch(DispatchAll(s, r, calls[..|calls| - 1]), r, calls[|calls| - 1]);
      t.(requests := t.requests[r := t.requests[r].(waiting := t.requests[r].waiting + Expected(calls[|calls| - 1]))])
  }

  function Destroy(s: Server, r: nat): Server { s.(requests := s.requests - {r}) }

  function Create(s: Server, batch: bool, arg: nat): Server {
    s.(requests := s.requests[s.next := Request(batch, [], 0, 0, None, arg)], next := s.next + 1)
  }

  /** `json_rpc_process_request` */
  function Process(s: Server, obj: Json, arg: nat): Server {
    var r := s.next;
    if obj.Obj? then
      var t := Dispatch(Create(s, false, arg), r, obj);
      if CallTypeOf(obj) == NotificationCall then Destroy(t, r) else t
    else if obj.Arr? && obj.elems != [] then
      var t := DispatchAll(Create(s, true, arg), r, obj.elems);
      if t.requests[r].waiting == 0 then Destroy(t, r) else t
    else s.(deliveries := s.deliveries + [Delivery(None, arg, InvalidReply())])
  }

  // ----- the event loop -----

  function Target(e: Event): Option<nat> { if e.Invoke? then e.req else Some(e.target) }

  /** No event refers to a record that has been freed. */
  predicate Live(s: Server, e: Event) { Target(e).Some? ==> Target(e).value in s.requests }

  /** `single_result_cb`, `batched_result_cb` */
  function Collect(s: Server, r: nat, res: Option<Json>): Server
    requires r in s.requests
  {
    var q := s.requests[r];
    if !q.batch then Destroy(s, r).(deliveries := s.deliveries + [Delivery(Some(r), q.arg, res)])
    else
      var p := q.(resultCount := q.resultCount + 1, results := q.results + if res.Some? then [res.value] else []);
      if p.resultCount != p.waiting then s.(requests := s.requests[r := p])
      else Destroy(s, r).(deliveries := s.deliveries + [Delivery(Some(r), q.arg, Some(Arr(p.results)))])
  }

  /** `deferred_callcb`, up to where a handler takes over. */
  function RunEvent(s: Server, k: nat): Server
    requires k < |s.queue| && Live(s, s.queue[k])
  {
    var e := s.queue[k];
    var t := s.(queue := s.queue[..k] + s.queue[k + 1..]);
    match e
    case Invoke(_, None, _, _) => t
    case Invoke(_, Some(r), _, id) => SetId(t, r, id).(owing := t.owing + multiset{r})
    case Result(r, res, id) => Collect(SetId(t, r, id), r, res)
  }

  /** `json_rpc_return`: the reply takes the id the record holds at that moment. */
  function Return(s: Server, r: nat, res: Option<Json>): Server
    requires r in s.requests
  {
    var id := s.requests[r].methodId;
    Enqueue(s, Result(r, MakeReply(id, res), id)).(owing := s.owing - multiset{r})
  }

  /** One thing that happens to the engine. */
  datatype Action = Arrive(obj: Json, arg: nat) | Fire(k: nat) | Reply(req: nat, res: Option<Json>)

  /** Handlers return at most once per call: a reply needs a handler that still owes one. */
  predicate Enabled(s: Server, a: Action) {
    match a
    case Arrive(_, _) => true
    case Fire(k) => k < |s.queue|
    case Reply(r, _) => r in s.owing
  }

  // ----- conservation -----

  /** Events in the queue that belong to r. */
  function Queued(q: seq<Event>, r: nat): nat {
    if q == [] then 0 else Queued(q[..|q| - 1], r) + if Target(q[|q| - 1]) == Some(r) then 1 else 0
  }

  function Outstanding(s: Server, r: nat): nat { Queued(s.queue, r) + s.owing[r] }

  /**
   For a record that is allocated, what has come in and what is still under way make up what is waited for,
   and something is under way; for any other, nothing is.
   */
  ghost predicate Balanced(s: Server, r: nat) {
    if r in s.requests then
      var q := s.requests[r];
      r < s.next && Outstanding(s, r) > 0 &&
      if q.batch then q.resultCount + Outstanding(s, r) == q.waiting else Outstanding(s, r) == 1
    else Outstanding(s, r) == 0
  }

  /** `user_cb` has been called for r. */
  function Calls(ds: seq<Delivery>, r: nat): nat {
    if ds == [] then 0 else Calls(ds[..|ds| - 1], r) + if ds[|ds| - 1].req == Some(r) then 1 else 0
  }

  /** `user_cb` is called at most once, and never while the record lives. */
  ghost predicate Settled(s: Server, r: nat) {
    Calls(s.deliveries, r) <= 1 && (r in s.requests || r >= s.next ==> Calls(s.deliveries, r) == 0)
  }

  ghost predicate Conserved(s: Server) {
    forall r: nat :: Balanced(s, r) && Settled(s, r)
  }

  lemma QueuedAppend(q: seq<Event>, e: Event, r: nat)
    ensures Queued(q + [e], r) == Queued(q, r) + if Target(e) == Some(r) then 1 else 0
  {
    assert (q + [e])[..|q|] == q;
  }

  lemma {:induction false} QueuedRemove(q: seq<Event>, k: nat, r: nat)
    requires k < |q|
    ensures Queued(q, r) == Queued(q[..k] + q[k + 1..], r) + if Target(q[k]) == Some(r) then 1 else 0
  {
    var p := q[..k] + q[k + 1..];
    if k == |q| - 1 {
      assert p == q[..k];
    } else {
      QueuedRemove(q[..|q| - 1], k, r);
      assert p[..|p| - 1] == q[..|q| - 1][..k] + q[..|q| - 1][k + 1..];
    }
  }

  lemma {:induction false} QueuedMember(q: seq<Event>, k: nat, r: nat)
    requires k < |q| && Target(q[k]) == Some(r)
    ensures Queued(q, r) > 0
  {
    QueuedRemove(q, k, r);
  }

  lemma CallsAppend(ds: seq<Delivery>, d: Delivery, r: nat)
    ensures Calls(ds + [d], r) == Calls(ds, r) + if d.req == Some(r) then 1 else 0
  {
    assert (ds + [d])[..|ds|] == ds;
  }

  /** In a conserved state every queued event and every handler still to return refers to an allocated record. */
  lemma AllLive(s: Server)
    requires Conserved(s)
    ensures forall k | 0 <= k < |s.queue| :: Live(s, s.queue[k])
    ensures forall r | r in s.owing :: r in s.requests
  {
    forall k | 0 <= k < |s.queue| ensures Live(s, s.queue[k]) {
      if Target(s.queue[k]).Some? {
        QueuedMember(s.queue, k, Target(s.queue[k]).value);
        assert Balanced(s, Target(s.queue[k]).value);
      }
    }
    forall r | r in s.owing ensures r in s.requests { assert Balanced(s, r); }
  }

  /** What happens, in a state where nothing dangles. */
  function Next(s: Server, a: Action): Server
    requires Conserved(s) && Enabled(s, a)
  {
    AllLive(s);
    match a
    case Arrive(obj, arg) => Process(s, obj, arg)
    case Fire(k) => RunEvent(s, k)
    case Reply(r, res) => Return(s, r, res)
  }

  // ----- every action conserves -----

  /** What dispatching changes: at most one event, for r if one result is expected, and r's current id. */
  ghost predicate Dispatched(s: Server, r: nat, expected: nat, t: Server) {
    && r in s.requests && t.requests.Keys == s.requests.Keys
    && (forall x | x in s.requests && x != r :: t.requests[x] == s.requests[x])
    && t.owing == s.owing && t.next == s.next && t.deliveries == s.deliveries && t.methods == s.methods
    && forall x: nat :: Queued(t.queue, x) == Queued(s.queue, x) + if x == r then expected else 0
  }

  lemma DispatchFacts(s: Server, r: nat, call: Json)
    requires r in s.requests
    ensures var t := Dispatch(s, r, call);
            Dispatched(s, r, Expected(call), t) && t.requests[r] == s.requests[r].(methodId := t.requests[r].methodId)
  {
    var t := Dispatch(s, r, call);
    if t.queue != s.queue {
      var e := t.queue[|s.queue|];
      assert t.queue == s.queue + [e];
      forall x: nat ensures Queued(t.queue, x) == Queued(s.queue, x) + if Target(e) == Some(x) then 1 else 0 {
        QueuedAppend(s.queue, e, x);
      }
    }
  }

  function ExpectedAll(calls: seq<Json>): nat {
    if calls == [] then 0 else ExpectedAll(calls[..|calls| - 1]) + Expected(calls[|calls| - 1])
  }

  lemma {:induction false} DispatchAllFacts(s: Server, r: nat, calls: seq<Json>)
    requires r in s.requests
    ensures var t := DispatchAll(s, r, calls);
            && Dispatched(s, r, ExpectedAll(calls), t)
            && t.requests[r] == s.requests[r].(methodId := t.requests[r].methodId,
                                               waiting := s.requests[r].waiting + ExpectedAll(calls))
  {
    if calls != [] {
      DispatchAllFacts(s, r, calls[..|calls| - 1]);
      DispatchFacts(DispatchAll(s, r, calls[..|calls| - 1]), r, calls[|calls| - 1]);
    }
  }

  /** A new record with what it waits for, or without one when it waits for nothing. */
  lemma CreatedConserved(s: Server, batch: bool, arg: nat, expected: nat, u: Server, t: Server)
    requires Conserved(s) && Dispatched(Create(s, batch, arg), s.next, expected, u)
    requires var q := u.requests[s.next];
             q.batch == batch && q.resultCount == 0 && if batch then q.waiting == expected else expected <= 1
    requires t == if expected == 0 then Destroy(u, s.next) else u
    ensures Conserved(t)
  {
    assert Balanced(s, s.next) && Settled(s, s.next);
    hide Queued, Calls;
    forall x: nat ensures Balanced(t, x) && Settled(t, x) {
      assert Balanced(s, x) && Settled(s, x);
    }
  }

  lemma ArriveConserved(s: Server, obj: Json, arg: nat)
    requires Conserved(s)
    ensures Conserved(Process(s, obj, arg))
  {
    var r, t := s.next, Process(s, obj, arg);
    if obj.Obj? {
      var c := Create(s, false, arg);
      DispatchFacts(c, r, obj);
      hide Conserved, Dispatched, Dispatch;
      CreatedConserved(s, false, arg, Expected(obj), Dispatch(c, r, obj), t);
    } else if obj.Arr? && obj.elems != [] {
      var c := Create(s, true, arg);
      DispatchAllFacts(c, r, obj.elems);
      hide Conserved, Dispatched, DispatchAll;
      CreatedConserved(s, true, arg, ExpectedAll(obj.elems), DispatchAll(c, r, obj.elems), t);
    } else {
      forall x: nat ensures Balanced(t, x) && Settled(t, x) {
        CallsAppend(s.deliveries, Delivery(None, arg, InvalidReply()), x);
        assert Balanced(s, x) && Settled(s, x);
      }
    }
  }

  lemma ReplyConserved(s: Server, r: nat, res: Option<Json>)
    requires Conserved(s) && r in s.owing && r in s.requests
    ensures Conserved(Return(s, r, res))
  {
    var t := Return(s, r, res);
    forall x: nat ensures Balanced(t, x) && Settled(t, x) {
      assert Balanced(s, x) && Settled(s, x);
      QueuedAppend(s.queue, t.queue[|s.queue|], x);
    }
  }

  lemma FireConserved(s: Server, k: nat)
    requires Conserved(s) && k < |s.queue| && Live(s, s.queue[k])
    ensures Conserved(RunEvent(s, k))
  {
    var t := RunEvent(s, k);
    forall x: nat ensures Balanced(t, x) && Settled(t, x) {
      assert Balanced(s, x) && Settled(s, x);
      hide *;
      FireBalanced(s, k, x);
      FireSettled(s, k, x);
    }
  }

  lemma FireBalanced(s: Server, k: nat, x: nat)
    requires k < |s.queue| && Live(s, s.queue[k]) && Balanced(s, x)
    ensures Balanced(RunEvent(s, k), x)
  {
    hide Queued;
    QueuedRemove(s.queue, k, x);
  }

  lemma FireSettled(s: Server, k: nat, x: nat)
    requires k < |s.queue| && Live(s, s.queue[k]) && Balanced(s, x) && Settled(s, x)
    ensures Settled(RunEvent(s, k), x)
  {
    var t := RunEvent(s, k);
    hide Queued, Calls;
    QueuedRemove(s.queue, k, x);
    if t.deliveries != s.deliveries {
      CallsAppend(s.deliveries, t.deliveries[|s.deliveries|], x);
    }
  }

  /**
   Batch conservation, kept by everything that can happen, in any order and with handlers returning as late
   as they like: result count, queued result callbacks, queued calls and handlers under way make up the
   waiting count; so no queued callback refers to a freed record and `user_cb` is called at most once.
   */
  lemma NextConserved(s: Server, a: Action)
    requires Conserved(s) && Enabled(s, a)
    ensures Conserved(Next(s, a))
  {
    AllLive(s);
    match a
    case Arrive(obj, arg) => ArriveConserved(s, obj, arg);
    case Fire(k) => FireConserved(s, k);
    case Reply(r, res) => ReplyConserved(s, r, res);
  }

  /** A new engine with its methods registered. */
  lemma InitialConserved(methods: seq<Method>)
    ensures Conserved(Server(methods, map[], 0, [], multiset{}, []))
  {
  }

  /** `user_cb` is called in one place only: when the last outstanding result of the request comes in. */
  lemma DeliversLast(s: Server, a: Action, r: nat)
    requires Conserved(s) && Enabled(s, a)
    requires Calls(Next(s, a).deliveries, r) > Calls(s.deliveries, r)
    ensures a.Fire? && s.queue[a.k].Result? && s.queue[a.k].target == r
    ensures r in s.requests && Outstanding(s, r) == 1 && r !in Next(s, a).requests
    ensures s.requests[r].batch ==> s.requests[r].resultCount + 1 == s.requests[r].waiting
  {
    AllLive(s);
    var t := Next(s, a);
    match a
    case Arrive(obj, arg) =>
      if obj.Obj? {
        DispatchFacts(Create(s, false, arg), s.next, obj);
      } else if obj.Arr? && obj.elems != [] {
        DispatchAllFacts(Create(s, true, arg), s.next, obj.elems);
      } else {
        CallsAppend(s.deliveries, Delivery(None, arg, InvalidReply()), r);
      }
    case Fire(k) =>
      if t.deliveries != s.deliveries { CallsAppend(s.deliveries, t.deliveries[|s.deliveries|], r); }
      assert Balanced(s, r);
    case Reply(_, _) =>
  }
}
