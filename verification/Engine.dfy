/** The server of src/json_rpc.c as the program runs it: records updated in place, proved against `Protocol`. */
module Engine {
  import opened Values
  import opened Messages
  import opened Protocol
  import opened Schedules

  class JsonRpc {
    var methods: seq<Method>            // jr->methods, newest first
    var requests: map<nat, Request>     // the allocated json_rpc_request records, by address
    var next: nat
    var queue: seq<Event>               // what event_once holds, in no particular order
    var deliveries: seq<Delivery>       // the calls of user_cb
    ghost var owing: multiset<nat>

    ghost function State(): Server
      reads this
    {
      Server(methods, requests, next, queue, owing, deliveries)
    }

    /** `json_rpc_new` */
    constructor ()
      ensures State() == Server([], map[], 0, [], multiset{}, []) && Conserved(State()) && Good(State())
    {
      methods := [];
      requests := map[];
      next := 0;
      queue := [];
      deliveries := [];
      owing := multiset{};
    }

    /** `json_rpc_add_method`: a later registration of a name hides the earlier ones */
    method AddMethod(name: string, handler: nat)
      modifies `methods
      ensures methods == [Method(name, handler)] + old(methods)
      ensures old(Conserved(State()) && Good(State())) ==> Conserved(State()) && Good(State())
      ensures FindMethod(methods, name) == Some(handler)
      ensures forall other :: other != name ==> FindMethod(methods, other) == FindMethod(old(methods), other)
    {
      if Conserved(State()) { AnyMethods(State(), [Method(name, handler)] + methods); }
      methods := [Method(name, handler)] + methods;
      assert methods[1..] == old(methods);
    }

    /** `lookup_entry` */
    method LookupEntry(name: string) returns (handler: Option<nat>)
      ensures handler == FindMethod(methods, name)
    {
      var p := 0;
      while p < |methods|
        invariant 0 <= p <= |methods|
        invariant FindMethod(methods, name) == FindMethod(methods[p..], name)
      {
        if methods[p].name == name { return Some(methods[p].handler); }
        assert methods[p..][1..] == methods[p + 1..];
        p := p + 1;
      }
      return None;
    }

    /** `add_method_to_queue` of a result: the request's id is remembered with it */
    method QueueResult(r: nat, res: Option<Json>)
      requires r in requests
      modifies `queue
      ensures queue == old(queue) + [Result(r, res, requests[r].methodId)]
    {
      queue := queue + [Result(r, res, requests[r].methodId)];
    }

    /** `add_method_to_queue` of a handler */
    method QueueCall(handler: nat, req: Option<nat>, params: Option<Json>)
      requires req.Some? ==> req.value in requests
      modifies `queue
      ensures queue == old(queue)
              + [Invoke(handler, req, params, if req.Some? then requests[req.value].methodId else None)]
    {
      queue := queue + [Invoke(handler, req, params, if req.Some? then requests[req.value].methodId else None)];
    }

    /** `dispatch_notification_call` */
    method DispatchNotification(r: nat, call: Json)
      requires r in requests && CallTypeOf(call) == NotificationCall
      modifies `queue
      ensures State() == Dispatch(old(State()), r, call)
    {
      var entry := LookupEntry(MethodName(call));
      if entry.Some? { QueueCall(entry.value, None, Get(call, "params")); }
    }

    /** `dispatch_request_call`: the shared record takes this call's id before anything is queued */
    method DispatchRequest(r: nat, call: Json)
      requires r in requests && CallTypeOf(call) == RequestCall
      modifies `queue, `requests
      ensures State() == Dispatch(old(State()), r, call)
    {
      var id := Get(call, "id");
      requests := requests[r := requests[r].(methodId := id)];
      var entry := LookupEntry(MethodName(call));
      if entry == None {
        QueueResult(r, NotFoundReply(id.value));
      } else {
        QueueCall(entry.value, Some(r), Get(call, "params"));
      }
    }

    /** `dispatch_call` */
    method DispatchCall(r: nat, call: Json) returns (t: CallType)
      requires r in requests
      modifies `queue, `requests
      ensures t == CallTypeOf(call) && State() == Dispatch(old(State()), r, call)
    {
      t := EvalCallType(call);
      match t
      case InvalidCall => QueueResult(r, InvalidReply());
      case NotificationCall => DispatchNotification(r, call);
      case RequestCall => DispatchRequest(r, call);
    }

    /** `create_request` */
    method CreateRequest(batch: bool, arg: nat) returns (r: nat)
      modifies `requests, `next
      ensures r == old(next) && State() == Create(old(State()), batch, arg)
    {
      r := next;
      requests := requests[r := Request(batch, [], 0, 0, None, arg)];
      next := next + 1;
    }

    /** `destroy_request` */
    method DestroyRequest(r: nat)
      modifies `requests
      ensures State() == Destroy(old(State()), r)
    {
      requests := requests - {r};
    }

    /** `process_single_call` */
    method ProcessSingleCall(obj: Json, arg: nat)
      requires obj.Obj?
      modifies this
      ensures State() == Process(old(State()), obj, arg)
    {
      var r := CreateRequest(false, arg);
      var t := DispatchCall(r, obj);
      if t == NotificationCall { DestroyRequest(r); }
    }

    /** `process_batched_call`: the waiting count grows while the elements are dispatched */
    method ProcessBatchedCall(batch: Json, arg: nat)
      requires batch.Arr? && batch.elems != []
      modifies this
      ensures State() == Process(old(State()), batch, arg)
    {
      hide Dispatch, CallTypeOf;
      ghost var s0 := Create(State(), true, arg);
      var r := CreateRequest(true, arg);
      for i := 0 to |batch.elems|
        invariant State() == DispatchAll(s0, r, batch.elems[..i])
      {
        DispatchAllStep(s0, r, batch.elems, i);
        var t := DispatchCall(r, batch.elems[i]);
        if t != NotificationCall {
          requests := requests[r := requests[r].(waiting := requests[r].waiting + 1)];
        }
      }
      assert batch.elems[..|batch.elems|] == batch.elems;
      if requests[r].waiting == 0 { DestroyRequest(r); }
    }

    /** `json_rpc_process_request` */
    method ProcessRequest(obj: Json, arg: nat)
      requires Conserved(State())
      modifies this
      ensures State() == Process(old(State()), obj, arg) && Conserved(State())
    {
      ArriveConserved(State(), obj, arg);
      if obj.Obj? {
        ProcessSingleCall(obj, arg);
      } else if obj.Arr? && |obj.elems| > 0 {
        ProcessBatchedCall(obj, arg);
      } else {
        deliveries := deliveries + [Delivery(None, arg, InvalidReply())];
      }
    }

    /** `single_result_cb`, `batched_result_cb` */
    method ResultCallback(r: nat, res: Option<Json>)
      requires r in requests
      modifies `requests, `deliveries
      ensures State() == Collect(old(State()), r, res)
    {
      if !requests[r].batch {
        deliveries := deliveries + [Delivery(Some(r), requests[r].arg, res)];
        DestroyRequest(r);
        return;
      }
      requests := requests[r := requests[r].(resultCount := requests[r].resultCount + 1)];
      if res.Some? {
        requests := requests[r := requests[r].(results := requests[r].results + [res.value])];
      } else {
        assert requests[r].results + [] == requests[r].results;
      }
      if requests[r].resultCount != requests[r].waiting { return; }
      deliveries := deliveries + [Delivery(Some(r), requests[r].arg, Some(Arr(requests[r].results)))];
      DestroyRequest(r);
    }

    /**
     `deferred_callcb` for the event at k: the id remembered with the event goes back into the record. For a
     handler it returns which one is to run now, and on behalf of which request.
     */
    method DeferredCallback(k: nat) returns (handler: Option<(nat, Option<nat>, Option<Json>)>)
      requires Conserved(State()) && k < |queue|
      modifies this
      ensures State() == Next(old(State()), Fire(k)) && Conserved(State())
      ensures handler == var e := old(queue)[k]; if e.Invoke? then Some((e.handler, e.req, e.params)) else None
    {
      NextConserved(State(), Fire(k));
      AllLive(State());
      var data := queue[k];
      queue := queue[..k] + queue[k + 1..];
      var req := Target(data);
      if req.Some? {
        requests := requests[req.value := requests[req.value].(methodId := data.savedId)];
      }
      if data.Invoke? {
        if req.Some? { owing := owing + multiset{req.value}; }
        handler := Some((data.handler, data.req, data.params));
      } else {
        ResultCallback(data.target, data.res);
        handler := None;
      }
    }

    /** `json_rpc_return`, for a handler that has not returned yet; for a notification's handler it does nothing */
    method JsonRpcReturn(req: Option<nat>, res: Option<Json>)
      requires Conserved(State()) && (req.Some? ==> req.value in owing)
      modifies `queue, `owing
      ensures req == None ==> State() == old(State())
      ensures req.Some? ==> State() == Next(old(State()), Reply(req.value, res))
      ensures Conserved(State())
    {
      if req == None { return; }
      NextConserved(State(), Reply(req.value, res));
      AllLive(State());
      var r := req.value;
      var jsonRpcRes := PrepareResponse(requests[r].methodId, res);
      if jsonRpcRes == None {
        jsonRpcRes := PrepareError("Internal error", INTERNAL_ERROR, requests[r].methodId);
      }
      QueueResult(r, jsonRpcRes);
      owing := owing - multiset{r};
    }
  }

  /**
   The event loop around the engine, for handlers that return inside their callbacks: messages come in, and queued
   events fire in whatever order the schedule says. The engine does what the schedule says of the protocol.
   */
  method EventLoop(jr: JsonRpc, sched: seq<Step>)
    requires Conserved(jr.State()) && Good(jr.State()) && Play(jr.State(), sched).Some?
    modifies jr
    ensures Play(old(jr.State()), sched) == Some(jr.State()) && Conserved(jr.State()) && Good(jr.State())
  {
    hide Good, Conserved, Process, RunEvent, Return;
    ghost var s0 := jr.State();
    assert sched[..0] == [];
    for i := 0 to |sched|
      invariant Conserved(jr.State()) && Good(jr.State())
      invariant Play(s0, sched[..i]) == Some(jr.State())
    {
      PlayStep(s0, sched, i);
      AdvanceGood(jr.State(), sched[i]);
      match sched[i] {
        case Incoming(obj, arg) => jr.ProcessRequest(obj, arg);
        case Turn(k, res) =>
          AdvanceIs(jr.State(), k, res);
          var handler := jr.DeferredCallback(k);
          if handler.Some? && handler.value.1.Some? { jr.JsonRpcReturn(handler.value.1, res); }
      }
    }
    assert sched[..|sched|] == sched;
  }

  lemma AnyMethods(s: Server, methods: seq<Method>)
    requires Conserved(s)
    ensures Conserved(s.(methods := methods))
  {
    forall r: nat ensures Balanced(s.(methods := methods), r) && Settled(s.(methods := methods), r) {
      assert Balanced(s, r) && Settled(s, r);
    }
  }

  lemma {:induction false} PlayStep(s: Server, sched: seq<Step>, i: nat)
    requires Conserved(s) && Play(s, sched).Some? && i < |sched|
    ensures var t := Play(s, sched[..i]);
            && t.Some? && (sched[i].Turn? ==> sched[i].k < |t.value.queue|)
            && Play(s, sched[..i + 1]) == Some(Advance(t.value, sched[i]))
  {
    hide Conserved, Advance;
    if i == |sched| - 1 {
      assert sched[..i + 1] == sched;
    } else {
      var init := sched[..|sched| - 1];
      PlayStep(s, init, i);
      assert init[..i] == sched[..i] && init[..i + 1] == sched[..i + 1];
    }
  }

  /** A turn is a callback and, for a handler, its return. */
  lemma AdvanceIs(s: Server, k: nat, res: Option<Json>)
    requires Conserved(s) && k < |s.queue|
    ensures Conserved(Next(s, Fire(k)))
    ensures var e, t := s.queue[k], Next(s, Fire(k));
            if e.Invoke? && e.req.Some? then
              e.req.value in t.owing && Advance(s, Turn(k, res)) == Next(t, Reply(e.req.value, res))
            else Advance(s, Turn(k, res)) == t
  {
    NextConserved(s, Fire(k));
    AllLive(s);
    hide Conserved, MakeReply;
  }

  lemma DispatchAllStep(s: Server, r: nat, calls: seq<Json>, i: nat)
    requires r in s.requests && i < |calls|
    ensures r in Dispatch(DispatchAll(s, r, calls[..i]), r, calls[i]).requests
    ensures var t := Dispatch(DispatchAll(s, r, calls[..i]), r, calls[i]);
            DispatchAll(s, r, calls[..i + 1]) == (
              if CallTypeOf(calls[i]) == NotificationCall then t
              else t.(requests := t.requests[r := t.requests[r].(waiting := t.requests[r].waiting + 1)]))
  {
    var all := calls[..i + 1];
    assert all[..|all| - 1] == calls[..i] && all[|all| - 1] == calls[i];
    assert Expected(calls[i]) == if CallTypeOf(calls[i]) == NotificationCall then 0 else 1;
    hide *;
    StillThere(s, r, calls[..i], calls[i]);
    DispatchAllLast(s, r, all);
    Unchanged(Dispatch(DispatchAll(s, r, calls[..i]), r, calls[i]), r);
  }

  lemma StillThere(s: Server, r: nat, calls: seq<Json>, call: Json)
    requires r in s.requests
    ensures r in Dispatch(DispatchAll(s, r, calls), r, call).requests
  {
    DispatchFacts(DispatchAll(s, r, calls), r, call);
    hide Dispatch, DispatchAll;
  }

  function Awaiting(t: Server, r: nat, n: nat): Server
    requires r in t.requests
  {
    t.(requests := t.requests[r := t.requests[r].(waiting := t.requests[r].waiting + n)])
  }

  lemma DispatchAllLast(s: Server, r: nat, calls: seq<Json>)
    requires r in s.requests && calls != []
    requires var init, call := calls[..|calls| - 1], calls[|calls| - 1];
             r in Dispatch(DispatchAll(s, r, init), r, call).requests
    ensures var init, call := calls[..|calls| - 1], calls[|calls| - 1];
            DispatchAll(s, r, calls) == Awaiting(Dispatch(DispatchAll(s, r, init), r, call), r, Expected(call))
  {
    hide Dispatch, Expected;
  }

  lemma Unchanged(t: Server, r: nat)
    requires r in t.requests
    ensures Awaiting(t, r, 0) == t
    ensures Awaiting(t, r, 1)
            == t.(requests := t.requests[r := t.requests[r].(waiting := t.requests[r].waiting + 1)])
  {
    assert t.requests[r := t.requests[r]] == t.requests;
  }
}
