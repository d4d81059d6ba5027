/**
 Whole runs of the server when every handler returns once, inside its own callback: each element of a batch
 is answered under its own id although all of them share one `method_id`, whatever the order of callbacks.
 */
module Schedules {
  import opened Values
  import opened Messages
  import opened Protocol

  // ----- who is owed what -----

  /** The handler an element of a request asks for, with its parameters and under its id, if any. */
  function Asked(methods: seq<Method>, r: nat, call: Json): Option<Event> {
    if CallTypeOf(call) != RequestCall then None
    else match FindMethod(methods, MethodName(call))
      case None => None
      case Some(h) => Some(Invoke(h, Some(r), Get(call, "params"), Get(call, "id")))
  }

  /** The answer an element gets without a handler, if any; section 6 of the JSON-RPC 2.0 Specification. */
  function Refused(methods: seq<Method>, call: Json): Option<Json> {
    match CallTypeOf(call)
    case InvalidCall => InvalidReply()
    case NotificationCall => None
    case RequestCall =>
      if FindMethod(methods, MethodName(call)) == None then NotFoundReply(Get(call, "id").value) else None
  }

  function Bag<T>(x: Option<T>): multiset<T> {
    if x.Some? then multiset{x.value} else multiset{}
  }

  /** The handlers a call or batch asks for. */
  function AskedAll(methods: seq<Method>, r: nat, calls: seq<Json>): multiset<Event> {
    if calls == [] then multiset{}
    else AskedAll(methods, r, calls[..|calls| - 1]) + Bag(Asked(methods, r, calls[|calls| - 1]))
  }

  function RefusedAll(methods: seq<Method>, calls: seq<Json>): multiset<Json> {
    if calls == [] then multiset{}
    else RefusedAll(methods, calls[..|calls| - 1]) + Bag(Refused(methods, calls[|calls| - 1]))
  }

  function Elements(obj: Json): seq<Json> {
    if obj.Arr? then obj.elems else [obj]
  }

  /** A handler's turn: the call it was started for and what it returned. */
  datatype Handling = Handling(call: Event, res: Option<Json>)

  function CallsIn(hs: seq<Handling>): seq<Event> {
    if hs == [] then [] else CallsIn(hs[..|hs| - 1]) + [hs[|hs| - 1].call]
  }

  /** The reply a turn calls for: what that very handler returned, under the id of that very call. */
  function ReplyTo(h: Handling): Option<Json> {
    if h.call.Invoke? then MakeReply(h.call.savedId, h.res) else None
  }

  function ReplyOf(h: Handling): seq<Json> {
    var v := ReplyTo(h);
    if v.Some? then [v.value] else []
  }

  function RepliesTo(hs: seq<Handling>): seq<Json> {
    if hs == [] then [] else RepliesTo(hs[..|hs| - 1]) + ReplyOf(hs[|hs| - 1])
  }

  /**
   The right answers: each handler asked for had exactly one turn, and the replies are, in some order, exactly one
   per turn, with that turn's result under that call's id, and one for each element refused.
   */
  ghost predicate Answers(methods: seq<Method>, r: nat, obj: Json, hs: seq<Handling>, rs: seq<Json>) {
    && multiset(CallsIn(hs)) == AskedAll(methods, r, Elements(obj))
    && multiset(rs) == RefusedAll(methods, Elements(obj)) + multiset(RepliesTo(hs))
    && forall v | v in rs :: IsReply(v)
  }

  /** Does the message ask for any answer? */
  predicate WantsAnswer(obj: Json) {
    (obj.Obj? && CallTypeOf(obj) != NotificationCall) || (obj.Arr? && ExpectedAll(obj.elems) > 0)
  }

  // ----- slots -----

  /** What r still has to come to its sender: a handler's turn, or a reply that exists already. */
  datatype Slot = Pending(call: Event) | Given(reply: Json)

  function SlotsOfCall(methods: seq<Method>, r: nat, call: Json): multiset<Slot> {
    var e, v := Asked(methods, r, call), Refused(methods, call);
    (if e.Some? then multiset{Pending(e.value)} else multiset{})
        + (if v.Some? then multiset{Given(v.value)} else multiset{})
  }

  function SlotsOfCalls(methods: seq<Method>, r: nat, calls: seq<Json>): multiset<Slot> {
    if calls == [] then multiset{}
    else SlotsOfCalls(methods, r, calls[..|calls| - 1]) + SlotsOfCall(methods, r, calls[|calls| - 1])
  }

  function Owed(methods: seq<Method>, r: nat, obj: Json): multiset<Slot> {
    SlotsOfCalls(methods, r, Elements(obj))
  }

  function SlotsOfEvent(e: Event, r: nat): multiset<Slot> {
    if Target(e) != Some(r) then multiset{}
    else match e
      case Invoke(_, _, _, _) => multiset{Pending(e)}
      case Result(_, res, _) => if res.Some? then multiset{Given(res.value)} else multiset{}
  }

  function SlotsQueued(q: seq<Event>, r: nat): multiset<Slot> {
    if q == [] then multiset{} else SlotsQueued(q[..|q| - 1], r) + SlotsOfEvent(q[|q| - 1], r)
  }

  function SlotsOf(replies: seq<Json>): multiset<Slot> {
    if replies == [] then multiset{} else SlotsOf(replies[..|replies| - 1]) + multiset{Given(replies[|replies| - 1])}
  }

  /** The turns taken off, and the replies they put in their place. */
  function Spent(hs: seq<Handling>): multiset<Slot> {
    if hs == [] then multiset{} else Spent(hs[..|hs| - 1]) + multiset{Pending(hs[|hs| - 1].call)}
  }

  function Earned(hs: seq<Handling>): multiset<Slot> {
    SlotsOf(RepliesTo(hs))
  }

  /** The replies inside what `user_cb` is given. */
  function Replies(batch: bool, obj: Option<Json>): seq<Json> {
    if obj == None then [] else if !batch then [obj.value] else if obj.value.Arr? then obj.value.elems else []
  }

  predicate SimpleId(id: Json) { id.Str? || id.Int? }

  /** Queued replies are there and are responses; queued calls carry their id. */
  predicate GoodEvent(e: Event) {
    match e
    case Invoke(_, req, _, id) => req.Some? ==> id.Some? && SimpleId(id.value)
    case Result(_, res, _) => res.Some? && IsReply(res.value)
  }

  ghost predicate Good(s: Server) {
    && s.owing == multiset{}
    && (forall e | e in s.queue :: GoodEvent(e))
    && forall r | r in s.requests :: GoodRequest(s.requests[r])
  }

  ghost predicate GoodRequest(q: Request) {
    (!q.batch ==> q.results == []) && forall v | v in q.results :: IsReply(v)
  }

  /** The one call of `user_cb` for r. */
  ghost predicate AnsweredBy(d: Delivery, r: nat, batch: bool, arg: nat, owed: multiset<Slot>) {
    && d.req == Some(r) && d.arg == arg
    && d.obj.Some? && (batch ==> d.obj.value.Arr?)
    && SlotsOf(Replies(batch, d.obj)) == owed
    && forall v | v in Replies(batch, d.obj) :: IsReply(v)
  }

  /** r is on its way with exactly the owed slots in results and queue, or has been answered with them. */
  ghost predicate Served(s: Server, r: nat, batch: bool, arg: nat, owed: multiset<Slot>) {
    && r < s.next
    && if r in s.requests then
         var q := s.requests[r];
         q.batch == batch && q.arg == arg && SlotsQueued(s.queue, r) + SlotsOf(q.results) == owed
       else exists i :: 0 <= i < |s.deliveries| && AnsweredBy(s.deliveries[i], r, batch, arg, owed)
  }

  /** A new engine satisfies what the runs below start from. */
  lemma InitialGood(methods: seq<Method>)
    ensures Good(Server(methods, map[], 0, [], multiset{}, []))
  {
  }

  // ----- one callback at a time -----

  /** What the event loop and the world do next: a message comes in, or event k fires and its handler returns res. */
  datatype Step = Incoming(obj: Json, arg: nat) | Turn(k: nat, res: Option<Json>)

  function Advance(s: Server, st: Step): Server
    requires Conserved(s) && (st.Turn? ==> st.k < |s.queue|)
  {
    match st
    case Incoming(obj, arg) => Process(s, obj, arg)
    case Turn(k, res) =>
      AllLive(s);
      var t := RunEvent(s, k);
      var e := s.queue[k];
      if e.Invoke? && e.req.Some? then Return(t, e.req.value, res) else t
  }

  lemma AdvanceConserved(s: Server, st: Step)
    requires Conserved(s) && (st.Turn? ==> st.k < |s.queue|)
    ensures Conserved(Advance(s, st))
  {
    AllLive(s);
    match st
    case Incoming(obj, arg) => NextConserved(s, Arrive(obj, arg));
    case Turn(k, res) =>
      NextConserved(s, Fire(k));
      var e := s.queue[k];
      if e.Invoke? && e.req.Some? { NextConserved(RunEvent(s, k), Reply(e.req.value, res)); }
  }

  lemma SlotsAppend(q: seq<Event>, e: Event, r: nat)
    ensures SlotsQueued(q + [e], r) == SlotsQueued(q, r) + SlotsOfEvent(e, r)
  {
    assert (q + [e])[..|q|] == q;
  }

  lemma Swap(a: multiset<Slot>, b: multiset<Slot>, c: multiset<Slot>)
    ensures (a + b) + c == (a + c) + b
  {
  }

  lemma SlotsUnfold(q: seq<Event>, r: nat)
    requires q != []
    ensures SlotsQueued(q, r) == SlotsQueued(q[..|q| - 1], r) + SlotsOfEvent(q[|q| - 1], r)
  {
  }

  lemma RemoveAppend(init: seq<Event>, last: Event, k: nat)
    requires k < |init|
    ensures var q := init + [last]; q[..k] + q[k + 1..] == (init[..k] + init[k + 1..]) + [last]
  {
  }

  lemma {:induction false} SlotsRemove(q: seq<Event>, k: nat, r: nat)
    requires k < |q|
    ensures SlotsQueued(q, r) == SlotsQueued(q[..k] + q[k + 1..], r) + SlotsOfEvent(q[k], r)
  {
    hide SlotsQueued, SlotsOfEvent;
    SlotsUnfold(q, r);
    if k == |q| - 1 {
      assert q[..k] + q[k + 1..] == q[..k];
    } else {
      var init, last := q[..|q| - 1], q[|q| - 1];
      SlotsRemove(init, k, r);
      assert q == init + [last];
      RemoveAppend(init, last, k);
      SlotsAppend(init[..k] + init[k + 1..], last, r);
      Swap(SlotsQueued(init[..k] + init[k + 1..], r), SlotsOfEvent(q[k], r), SlotsOfEvent(last, r));
    }
  }

  lemma SlotsOfAppend(rs: seq<Json>, v: Json)
    ensures SlotsOf(rs + [v]) == SlotsOf(rs) + multiset{Given(v)}
  {
    assert (rs + [v])[..|rs|] == rs;
  }

  // ----- messages coming in -----

  /** The event a call puts into the queue. */
  function EventOf(methods: seq<Method>, r: nat, current: Option<Json>, call: Json): Option<Event> {
    var h := FindMethod(methods, MethodName(call));
    if CallTypeOf(call) == NotificationCall then
      if h == None then None else Some(Invoke(h.value, None, Get(call, "params"), None))
    else if Asked(methods, r, call).Some? then Asked(methods, r, call)
    else Some(Result(r, Refused(methods, call), if CallTypeOf(call) == InvalidCall then current else Get(call, "id")))
  }

  lemma DispatchQueue(s: Server, r: nat, call: Json)
    requires r in s.requests
    ensures var e := EventOf(s.methods, r, s.requests[r].methodId, call);
            Dispatch(s, r, call).queue == s.queue + if e == None then [] else [e.value]
  {
    hide InvalidReply, NotFoundReply, FindMethod, MethodName, IsCall;
  }

  /** An element is given to a handler or answered without one, never both; a notification is not answered at all. */
  lemma OneAnswer(methods: seq<Method>, r: nat, call: Json)
    ensures var e, v := Asked(methods, r, call), Refused(methods, call);
            && (CallTypeOf(call) == NotificationCall ==> e == None && v == None)
            && (CallTypeOf(call) != NotificationCall ==> (e.Some? <==> v == None))
            && (e.Some? ==> e.value.Invoke? && e.value.req == Some(r) && GoodEvent(e.value))
            && (v.Some? ==> IsReply(v.value))
  {
    var id := Get(call, "id");
    if CallTypeOf(call) == RequestCall { RequestId(call); }
    hide FindMethod, MethodName, CallTypeOf, IsReply, Get, SimpleId;
    if CallTypeOf(call) == RequestCall {
      RepliesAreResponses(id.value, None);
      hide InvalidReply, NotFoundReply, MakeReply, ErrorCode;
    } else if CallTypeOf(call) == InvalidCall {
      RepliesAreResponses(Null, None);
      hide InvalidReply, NotFoundReply, MakeReply, ErrorCode;
    }
  }

  lemma RequestId(call: Json)
    requires CallTypeOf(call) == RequestCall
    ensures Get(call, "id").Some? && SimpleId(Get(call, "id").value)
    ensures Get(call, "id").value.Str? || Get(call, "id").value.Int?
  {
    hide Get;
  }

  lemma EventSlots(methods: seq<Method>, r: nat, current: Option<Json>, call: Json, x: nat)
    ensures var e := EventOf(methods, r, current, call);
            && (e.Some? ==> GoodEvent(e.value))
            && (if e == None then multiset{} else SlotsOfEvent(e.value, x))
               == (if x == r then SlotsOfCall(methods, r, call) else multiset{})
  {
    OneAnswer(methods, r, call);
    hide Asked, Refused, CallTypeOf, IsReply, Get, SimpleId, FindMethod, MethodName;
    var e, slots := EventOf(methods, r, current, call), SlotsOfCall(methods, r, call);
    if CallTypeOf(call) == NotificationCall {
      assert slots == multiset{};
    } else if Asked(methods, r, call).Some? {
      assert slots == multiset{Pending(e.value)};
    } else {
      assert slots == multiset{Given(e.value.res.value)};
    }
  }

  /** Dispatching a call queues a good event that gives exactly the answer the call is owed. */
  lemma DispatchSlots(s: Server, r: nat, call: Json, x: nat)
    requires r in s.requests && forall e | e in s.queue :: GoodEvent(e)
    ensures var t := Dispatch(s, r, call);
            && SlotsQueued(t.queue, x)
                == SlotsQueued(s.queue, x) + (if x == r then SlotsOfCall(s.methods, r, call) else multiset{})
            && forall e | e in t.queue :: GoodEvent(e)
  {
    DispatchQueue(s, r, call);
    EventSlots(s.methods, r, s.requests[r].methodId, call, x);
    var e := EventOf(s.methods, r, s.requests[r].methodId, call);
    hide Dispatch, EventOf, GoodEvent, SlotsOfEvent, SlotsOfCall, SlotsQueued;
    if e.Some? { SlotsAppend(s.queue, e.value, x); } else { assert s.queue + [] == s.queue; }
  }

  lemma {:induction false} DispatchAllSlots(s: Server, r: nat, calls: seq<Json>, x: nat)
    requires r in s.requests && forall e | e in s.queue :: GoodEvent(e)
    ensures var t := DispatchAll(s, r, calls);
            && SlotsQueued(t.queue, x)
                == SlotsQueued(s.queue, x) + (if x == r then SlotsOfCalls(s.methods, r, calls) else multiset{})
            && forall e | e in t.queue :: GoodEvent(e)
  {
    if calls != [] {
      var init := calls[..|calls| - 1];
      DispatchAllSlots(s, r, init, x);
      DispatchAllFacts(s, r, init);
      DispatchSlots(DispatchAll(s, r, init), r, calls[|calls| - 1], x);
    }
  }

  lemma OwedSingle(methods: seq<Method>, r: nat, obj: Json)
    requires !obj.Arr?
    ensures Owed(methods, r, obj) == SlotsOfCall(methods, r, obj)
  {
    assert [obj][..0] == [];
    assert SlotsOfCalls(methods, r, []) == multiset{};
    assert SlotsOfCalls(methods, r, [obj]) == SlotsOfCalls(methods, r, []) + SlotsOfCall(methods, r, obj);
  }

  /** All that a message coming in changes, for the records there already and for the new one, r. */
  ghost predicate Admitted(s: Server, obj: Json, arg: nat, owed: multiset<Slot>, t: Server) {
    var r := s.next;
    && s.deliveries <= t.deliveries && t.next >= s.next && t.methods == s.methods && t.owing == s.owing
    && (forall x | x in s.requests && x != r :: x in t.requests && t.requests[x] == s.requests[x])
    && (forall x | x in t.requests && x != r :: x in s.requests)
    && (r in t.requests ==> var q := t.requests[r]; q.batch == obj.Arr? && q.arg == arg && q.results == [])
    && (forall x: nat :: SlotsQueued(t.queue, x) == SlotsQueued(s.queue, x) + if x == r then owed else multiset{})
    && forall e | e in t.queue :: GoodEvent(e)
  }

  lemma AdmitIf(s: Server, obj: Json, arg: nat, expected: nat, owed: multiset<Slot>, t: Server)
    requires Good(s) && Dispatched(Create(s, obj.Arr?, arg), s.next, expected, t)
    requires var q := t.requests[s.next]; q.batch == obj.Arr? && q.arg == arg && q.results == []
    requires forall x: nat ::
               SlotsQueued(t.queue, x) == SlotsQueued(s.queue, x) + if x == s.next then owed else multiset{}
    requires forall e | e in t.queue :: GoodEvent(e)
    ensures Admitted(s, obj, arg, owed, t) && Admitted(s, obj, arg, owed, Destroy(t, s.next)) && t.next > s.next
  {
    hide SlotsQueued, GoodEvent, Queued;
  }

  lemma AdmitSingle(s: Server, obj: Json, arg: nat)
    requires Good(s) && obj.Obj?
    ensures Admitted(s, obj, arg, Owed(s.methods, s.next, obj), Process(s, obj, arg))
    ensures CallTypeOf(obj) != NotificationCall ==> s.next in Process(s, obj, arg).requests
    ensures s.next < Process(s, obj, arg).next
  {
    var c := Create(s, false, arg);
    DispatchFacts(c, s.next, obj);
    OwedSingle(s.methods, s.next, obj);
    hide Dispatch, SlotsQueued, SlotsOfCall, GoodEvent, Dispatched, Admitted, CallTypeOf, Expected, Owed;
    var t := Dispatch(c, s.next, obj);
    forall x: nat
      ensures SlotsQueued(t.queue, x)
              == SlotsQueued(s.queue, x) + if x == s.next then Owed(s.methods, s.next, obj) else multiset{}
    {
      DispatchSlots(c, s.next, obj, x);
    }
    DispatchSlots(c, s.next, obj, 0);
    DispatchedHas(c, s.next, Expected(obj), t);
    AdmitIf(s, obj, arg, Expected(obj), Owed(s.methods, s.next, obj), t);
  }

  lemma DispatchedHas(s: Server, r: nat, expected: nat, t: Server)
    requires Dispatched(s, r, expected, t)
    ensures r in t.requests
  {
  }

  lemma AdmitBatch(s: Server, obj: Json, arg: nat)
    requires Good(s) && obj.Arr? && obj.elems != []
    ensures Admitted(s, obj, arg, Owed(s.methods, s.next, obj), Process(s, obj, arg))
    ensures ExpectedAll(obj.elems) > 0 ==> s.next in Process(s, obj, arg).requests
    ensures s.next < Process(s, obj, arg).next
  {
    var c := Create(s, true, arg);
    DispatchAllFacts(c, s.next, obj.elems);
    hide DispatchAll, SlotsQueued, SlotsOfCalls, GoodEvent, Dispatched, Admitted, ExpectedAll;
    var t := DispatchAll(c, s.next, obj.elems);
    forall x: nat
      ensures SlotsQueued(t.queue, x)
              == SlotsQueued(s.queue, x) + if x == s.next then Owed(s.methods, s.next, obj) else multiset{}
    {
      DispatchAllSlots(c, s.next, obj.elems, x);
    }
    DispatchAllSlots(c, s.next, obj.elems, 0);
    AdmitIf(s, obj, arg, ExpectedAll(obj.elems), Owed(s.methods, s.next, obj), t);
  }

  lemma Admit(s: Server, obj: Json, arg: nat)
    requires Good(s) && s.next !in s.requests
    ensures exists owed :: Admitted(s, obj, arg, owed, Process(s, obj, arg))
  {
    hide Admitted;
    if obj.Obj? { AdmitSingle(s, obj, arg); }
    else if obj.Arr? && obj.elems != [] { AdmitBatch(s, obj, arg); }
    else { AdmitOther(s, obj, arg); }
  }

  lemma AdmitOther(s: Server, obj: Json, arg: nat)
    requires Good(s) && !obj.Obj? && !(obj.Arr? && obj.elems != []) && s.next !in s.requests
    ensures Admitted(s, obj, arg, multiset{}, Process(s, obj, arg))
  {
    forall x: nat ensures SlotsQueued(s.queue, x) == SlotsQueued(s.queue, x) + multiset{} {}
  }

  lemma ArriveGood(s: Server, obj: Json, arg: nat)
    requires Good(s) && s.next !in s.requests
    ensures Good(Process(s, obj, arg))
  {
    Admit(s, obj, arg);
    hide Process, SlotsQueued, GoodEvent;
  }

  lemma {:induction false} NoSlotsQueued(q: seq<Event>, r: nat)
    requires Queued(q, r) == 0
    ensures SlotsQueued(q, r) == multiset{}
  {
    if q != [] { NoSlotsQueued(q[..|q| - 1], r); }
  }

  /** The new record owes its sender what the elements are owed. */
  lemma ArriveServed(s: Server, obj: Json, arg: nat)
    requires Conserved(s) && Good(s) && WantsAnswer(obj)
    ensures Served(Process(s, obj, arg), s.next, obj.Arr?, arg, Owed(s.methods, s.next, obj))
  {
    assert Balanced(s, s.next);
    NoSlotsQueued(s.queue, s.next);
    if obj.Obj? {
      AdmitSingle(s, obj, arg);
    } else {
      AdmitBatch(s, obj, arg);
    }
    assert SlotsOf([]) == multiset{};
    hide Process, SlotsQueued, Owed, GoodEvent;
  }

  /** A request that is already being served is not touched by another one coming in. */
  lemma ArriveKeepsServed(s: Server, obj: Json, arg: nat, r: nat, batch: bool, earlier: nat, owed: multiset<Slot>)
    requires Good(s) && s.next !in s.requests && Served(s, r, batch, earlier, owed)
    ensures Served(Process(s, obj, arg), r, batch, earlier, owed)
  {
    var t := Process(s, obj, arg);
    Admit(s, obj, arg);
    hide Process, SlotsQueued, GoodEvent, SlotsOf, Replies;
    if r !in s.requests {
      var i :| 0 <= i < |s.deliveries| && AnsweredBy(s.deliveries[i], r, batch, earlier, owed);
      assert t.deliveries[i] == s.deliveries[i];
    }
  }

  // ----- callbacks -----

  lemma InQueue(q: seq<Event>, k: nat)
    requires k < |q|
    ensures forall e | e in q[..k] + q[k + 1..] :: e in q
  {
  }

  /** A handler's turn: its call leaves the queue, its reply enters it, under the id the call was queued with. */
  lemma InvokeShape(s: Server, k: nat, res: Option<Json>)
    requires Conserved(s) && k < |s.queue| && s.queue[k].Invoke? && s.queue[k].req.Some?
    ensures var e := s.queue[k]; var r := e.req.value; var t := Advance(s, Turn(k, res));
            && r in s.requests && t.requests == s.requests[r := s.requests[r].(methodId := e.savedId)]
            && t.queue == s.queue[..k] + s.queue[k + 1..] + [Result(r, MakeReply(e.savedId, res), e.savedId)]
            && t == s.(requests := t.requests, queue := t.queue, owing := s.owing + multiset{r} - multiset{r})
  {
    AllLive(s);
    hide Conserved, MakeReply;
  }

  /** Which turn of a handler of r a step is, if it is one. */
  function HandledBy(s: Server, st: Step, r: nat): seq<Handling>
    requires st.Turn? ==> st.k < |s.queue|
  {
    if st.Turn? && s.queue[st.k].Invoke? && s.queue[st.k].req == Some(r) then [Handling(s.queue[st.k], st.res)] else []
  }

  /** The reply that takes the place of a call in the queue. */
  lemma ReplySlot(e: Event, res: Option<Json>, x: nat)
    requires e.Invoke? && e.req.Some? && GoodEvent(e)
    ensures var f := Result(e.req.value, MakeReply(e.savedId, res), e.savedId); var h := Handling(e, res);
            && GoodEvent(f) && ReplyTo(h).Some?
            && SlotsOfEvent(f, x) == (if e.req == Some(x) then multiset{Given(ReplyTo(h).value)} else multiset{})
  {
    ReplyContents(e.savedId, res);
    hide MakeReply, IsReply;
  }

  /** The slots a handler's turn takes away and puts in their place. */
  function TurnSpends(e: Event, x: nat): multiset<Slot> {
    if e.Invoke? && e.req == Some(x) then multiset{Pending(e)} else multiset{}
  }

  function TurnEarns(e: Event, res: Option<Json>, x: nat): multiset<Slot> {
    if e.Invoke? && e.req == Some(x) && ReplyTo(Handling(e, res)).Some?
    then multiset{Given(ReplyTo(Handling(e, res)).value)} else multiset{}
  }

  lemma TurnOf(s: Server, k: nat, res: Option<Json>, x: nat)
    requires k < |s.queue| && s.queue[k].Invoke?
            && (s.queue[k].req == Some(x) ==> ReplyTo(Handling(s.queue[k], res)).Some?)
    ensures var hs := HandledBy(s, Turn(k, res), x);
            Spent(hs) == TurnSpends(s.queue[k], x) && Earned(hs) == TurnEarns(s.queue[k], res, x)
  {
    var h := Handling(s.queue[k], res);
    assert RepliesTo([]) == [] && SlotsOf([]) == multiset{};
    assert Spent([]) == multiset{} && Earned([]) == multiset{};
    if s.queue[k].req == Some(x) { OneTurn(h); }
    hide ReplyTo, Spent, Earned;
  }

  lemma OneTurn(h: Handling)
    requires ReplyTo(h).Some?
    ensures Spent([h]) == multiset{Pending(h.call)} && Earned([h]) == multiset{Given(ReplyTo(h).value)}
  {
    hide ReplyTo;
    assert [h][..0] == [] && Spent([]) == multiset{} && RepliesTo([]) == [] && SlotsOf([]) == multiset{};
    assert RepliesTo([h]) == [] + [ReplyTo(h).value];
    SlotsOfAppend([], ReplyTo(h).value);
  }

  /** A call replaced by its result at the end of the queue. */
  lemma InvokeSlots(q: seq<Event>, k: nat, f: Event, res: Option<Json>, x: nat)
    requires k < |q| && q[k].Invoke? && q[k].req.Some? && GoodEvent(q[k])
    requires f == Result(q[k].req.value, MakeReply(q[k].savedId, res), q[k].savedId)
    ensures SlotsQueued(q[..k] + q[k + 1..] + [f], x) + TurnSpends(q[k], x)
            == SlotsQueued(q, x) + TurnEarns(q[k], res, x)
  {
    var p, spends, earns := q[..k] + q[k + 1..], TurnSpends(q[k], x), TurnEarns(q[k], res, x);
    ReplySlot(q[k], res, x);
    assert SlotsOfEvent(q[k], x) == spends && SlotsOfEvent(f, x) == earns by {
      hide MakeReply, GoodEvent;
    }
    hide *;
    SlotsRemove(q, k, x);
    SlotsAppend(p, f, x);
    Swap(SlotsQueued(p, x), earns, spends);
  }

  lemma InvokeTurn(s: Server, k: nat, res: Option<Json>, x: nat)
    requires Conserved(s) && Good(s) && k < |s.queue| && s.queue[k].Invoke? && s.queue[k].req.Some?
    ensures var t := Advance(s, Turn(k, res)); var e := s.queue[k];
            && SlotsQueued(t.queue, x) + TurnSpends(e, x) == SlotsQueued(s.queue, x) + TurnEarns(e, res, x)
            && ReplyTo(Handling(e, res)).Some?
            && (forall f | f in t.queue :: GoodEvent(f)) && t.owing == s.owing && t.next == s.next
                && t.deliveries == s.deliveries
            && e.req.value in s.requests && t.requests.Keys == s.requests.Keys
            && forall y | y in s.requests :: t.requests[y] == s.requests[y].(methodId := t.requests[y].methodId)
  {
    var e := s.queue[k];
    var f := Result(e.req.value, MakeReply(e.savedId, res), e.savedId);
    assert GoodEvent(e) && forall g | g in s.queue :: GoodEvent(g);
    hide *;
    InvokeRecords(s, k, res);
    ReplySlot(e, res, x);
    InvokeSlots(s.queue, k, f, res, x);
    GoodQueue(s.queue, k, f);
  }

  lemma InvokeRecords(s: Server, k: nat, res: Option<Json>)
    requires Conserved(s) && k < |s.queue| && s.queue[k].Invoke? && s.queue[k].req.Some?
    ensures var e := s.queue[k]; var t := Advance(s, Turn(k, res));
            && t.queue == s.queue[..k] + s.queue[k + 1..] + [Result(e.req.value, MakeReply(e.savedId, res), e.savedId)]
            && t.owing == s.owing && t.next == s.next && t.deliveries == s.deliveries
            && e.req.value in s.requests && t.requests.Keys == s.requests.Keys
            && forall y | y in s.requests :: t.requests[y] == s.requests[y].(methodId := t.requests[y].methodId)
  {
    hide *;
    InvokeShape(s, k, res);
  }

  lemma GoodQueue(q: seq<Event>, k: nat, f: Event)
    requires k < |q| && (forall e | e in q :: GoodEvent(e)) && GoodEvent(f)
    ensures forall e | e in q[..k] + q[k + 1..] + [f] :: GoodEvent(e)
  {
    InQueue(q, k);
    hide GoodEvent;
  }

  lemma InvokeGood(s: Server, k: nat, res: Option<Json>)
    requires Conserved(s) && Good(s) && k < |s.queue| && s.queue[k].Invoke? && s.queue[k].req.Some?
    ensures Good(Advance(s, Turn(k, res)))
  {
    InvokeTurn(s, k, res, 0);
    hide Advance, SlotsQueued, GoodEvent, Conserved;
  }

  /** A handler that returns inside its callback is answered for with its own result, under its own call's id. */
  lemma InvokeServed(s: Server, k: nat, res: Option<Json>, r: nat, batch: bool, arg: nat, owed: multiset<Slot>)
    returns (now: multiset<Slot>)
    requires Conserved(s) && Good(s) && k < |s.queue| && s.queue[k].Invoke? && s.queue[k].req.Some?
    requires Served(s, r, batch, arg, owed)
    ensures Served(Advance(s, Turn(k, res)), r, batch, arg, now)
    ensures var hs := HandledBy(s, Turn(k, res), r); now + Spent(hs) == owed + Earned(hs)
  {
    var e, t := s.queue[k], Advance(s, Turn(k, res));
    InvokeTurn(s, k, res, r);
    TurnOf(s, k, res, r);
    hide Advance, SlotsQueued, GoodEvent, Conserved, Good, SlotsOf, Replies, ReplyTo, Spent, Earned, HandledBy;
    if r in s.requests {
      var given := SlotsOf(s.requests[r].results);
      now := SlotsQueued(t.queue, r) + given;
      Exchanged(SlotsQueued(t.queue, r), SlotsQueued(s.queue, r), TurnSpends(e, r), TurnEarns(e, res, r), given);
    } else {
      now := owed;
    }
  }

  lemma Exchanged(after: multiset<Slot>, before: multiset<Slot>, lost: multiset<Slot>, won: multiset<Slot>,
                  rest: multiset<Slot>)
    requires after + lost == before + won
    ensures after + rest + lost == before + rest + won
  {
    Swap(after, rest, lost);
    Swap(before, rest, won);
  }

  /** A result's turn, without its effect on the record: it leaves the queue. */
  lemma ResultTurn(s: Server, k: nat, x: nat)
    requires Conserved(s) && Good(s) && k < |s.queue| && s.queue[k].Result?
    ensures var e := s.queue[k]; var p := s.queue[..k] + s.queue[k + 1..];
            && e.target in s.requests && e.res.Some? && IsReply(e.res.value)
            && SlotsQueued(s.queue, x)
                == SlotsQueued(p, x) + (if x == e.target then multiset{Given(e.res.value)} else multiset{})
            && (forall f | f in p :: GoodEvent(f))
  {
    AllLive(s);
    assert GoodEvent(s.queue[k]);
    SlotsRemove(s.queue, k, x);
    InQueue(s.queue, k);
  }

  lemma Filed(q: Request, v: Json)
    requires GoodRequest(q) && IsReply(v) && q.batch
    ensures GoodRequest(q.(results := q.results + [v]))
  {
  }

  /** The record after a result: gone, or with the result filed; the others are as they were. */
  lemma CollectShape(s: Server, k: nat, res: Option<Json>)
    requires Conserved(s) && k < |s.queue| && s.queue[k].Result? && s.queue[k].res.Some?
    ensures var e := s.queue[k]; var r := e.target; var t := Advance(s, Turn(k, res));
            && r in s.requests
            && t.queue == s.queue[..k] + s.queue[k + 1..] && t.next == s.next && t.owing == s.owing
            && (forall y | y in s.requests && y != r :: y in t.requests && t.requests[y] == s.requests[y])
            && (forall y | y in t.requests :: y in s.requests)
            && var q := s.requests[r]; var all := q.results + [e.res.value];
               if Outstanding(s, r) == 1 then
                 && r !in t.requests
                 && t.deliveries == s.deliveries + [Delivery(Some(r), q.arg, if q.batch then Some(Arr(all)) else e.res)]
               else
                 && t.deliveries == s.deliveries && r in t.requests && q.batch
                 && t.requests[r] == q.(results := all, resultCount := q.resultCount + 1, methodId := e.savedId)
  {
    AllLive(s);
    assert Balanced(s, s.queue[k].target);
    hide Conserved, Queued;
  }

  lemma ResultGood(s: Server, k: nat, res: Option<Json>)
    requires Conserved(s) && Good(s) && k < |s.queue| && s.queue[k].Result?
    ensures Good(Advance(s, Turn(k, res)))
  {
    ResultTurn(s, k, 0);
    var e := s.queue[k];
    var q := s.requests[e.target];
    assert GoodRequest(q);
    CollectShape(s, k, res);
    hide SlotsQueued, GoodEvent, Conserved, IsReply, Advance, Outstanding;
    if Outstanding(s, e.target) != 1 { Filed(q, e.res.value); }
    hide GoodRequest;
    assert GoodRequest(q.(results := q.results + [e.res.value]))
      ==> GoodRequest(q.(results := q.results + [e.res.value], resultCount := q.resultCount + 1, methodId := e.savedId))
      by { SameResults(q.(results := q.results + [e.res.value]), q.resultCount + 1, e.savedId); }
  }

  lemma SameResults(q: Request, n: nat, id: Option<Json>)
    ensures GoodRequest(q) <==> GoodRequest(q.(resultCount := n, methodId := id))
  {
  }

  lemma NothingLeft(s: Server, k: nat)
    requires k < |s.queue| && s.queue[k].Result? && Outstanding(s, s.queue[k].target) == 1
    ensures SlotsQueued(s.queue[..k] + s.queue[k + 1..], s.queue[k].target) == multiset{}
  {
    QueuedRemove(s.queue, k, s.queue[k].target);
    NoSlotsQueued(s.queue[..k] + s.queue[k + 1..], s.queue[k].target);
    hide Queued, SlotsQueued;
  }

  lemma LastAnswer(q: Request, v: Json, r: nat, batch: bool, arg: nat, owed: multiset<Slot>)
    requires GoodRequest(q) && IsReply(v) && q.batch == batch && q.arg == arg
    requires multiset{Given(v)} + SlotsOf(q.results) == owed
    ensures AnsweredBy(Delivery(Some(r), q.arg, Some(if q.batch then Arr(q.results + [v]) else v)), r, batch, arg, owed)
  {
    SlotsOfAppend(q.results, v);
    assert !q.batch ==> q.results + [v] == [v];
    hide SlotsOf, IsReply;
  }

  /** The last result of r: what is delivered are exactly the answers owed. */
  lemma LastResult(s: Server, k: nat, batch: bool, arg: nat, owed: multiset<Slot>)
    requires Conserved(s) && Good(s) && k < |s.queue| && s.queue[k].Result? && s.queue[k].res.Some?
    requires var r := s.queue[k].target; Served(s, r, batch, arg, owed) && r in s.requests && Outstanding(s, r) == 1
    ensures var e := s.queue[k]; var q := s.requests[e.target];
            AnsweredBy(Delivery(Some(e.target), q.arg, if q.batch then Some(Arr(q.results + [e.res.value])) else e.res),
                       e.target, batch, arg, owed)
  {
    var e := s.queue[k];
    var q := s.requests[e.target];
    ResultTurn(s, k, e.target);
    NothingLeft(s, k);
    assert GoodRequest(q);
    hide SlotsQueued, GoodEvent, Conserved, IsReply, SlotsOf, Queued, Good, Outstanding;
    LastAnswer(q, e.res.value, e.target, batch, arg, owed);
  }

  lemma ResultLast(s: Server, k: nat, res: Option<Json>, batch: bool, arg: nat, owed: multiset<Slot>)
    requires Conserved(s) && Good(s) && k < |s.queue| && s.queue[k].Result? && s.queue[k].res.Some?
    requires s.queue[k].target in s.requests
    requires Served(s, s.queue[k].target, batch, arg, owed) && Outstanding(s, s.queue[k].target) == 1
    ensures Served(Advance(s, Turn(k, res)), s.queue[k].target, batch, arg, owed)
  {
    var t := Advance(s, Turn(k, res));
    CollectShape(s, k, res);
    hide SlotsQueued, GoodEvent, Good, Conserved, IsReply, SlotsOf, Outstanding, Advance, AnsweredBy;
    LastResult(s, k, batch, arg, owed);
    assert AnsweredBy(t.deliveries[|s.deliveries|], s.queue[k].target, batch, arg, owed);
  }

  lemma ResultServed(s: Server, k: nat, res: Option<Json>, r: nat, batch: bool, arg: nat, owed: multiset<Slot>)
    requires Conserved(s) && Good(s) && k < |s.queue| && s.queue[k].Result?
    requires Served(s, r, batch, arg, owed)
    ensures Served(Advance(s, Turn(k, res)), r, batch, arg, owed)
  {
    var e, t := s.queue[k], Advance(s, Turn(k, res));
    ResultTurn(s, k, r);
    if r in s.requests && e.target == r && Outstanding(s, r) == 1 {
      hide *;
      ResultLast(s, k, res, batch, arg, owed);
      return;
    }
    CollectShape(s, k, res);
    hide SlotsQueued, GoodEvent, Good, Conserved, IsReply, SlotsOf, Outstanding, Advance, AnsweredBy;
    if r !in s.requests {
      StillAnswered(s, t, r, batch, arg, owed);
    } else if e.target == r {
      MoreResults(s, k, r, t, owed);
    }
  }

  lemma StillAnswered(s: Server, t: Server, r: nat, batch: bool, arg: nat, owed: multiset<Slot>)
    requires Served(s, r, batch, arg, owed) && r !in s.requests && r !in t.requests
    requires s.deliveries <= t.deliveries && s.next <= t.next
    ensures Served(t, r, batch, arg, owed)
  {
    hide AnsweredBy;
    var i :| 0 <= i < |s.deliveries| && AnsweredBy(s.deliveries[i], r, batch, arg, owed);
    assert t.deliveries[i] == s.deliveries[i];
  }

  lemma MoreResults(s: Server, k: nat, r: nat, t: Server, owed: multiset<Slot>)
    requires k < |s.queue| && s.queue[k].Result? && s.queue[k].res.Some? && r in s.requests && r in t.requests
    requires SlotsQueued(s.queue, r) + SlotsOf(s.requests[r].results) == owed
    requires var v := s.queue[k].res.value;
             && SlotsQueued(s.queue, r) == SlotsQueued(t.queue, r) + multiset{Given(v)}
             && t.requests[r].results == s.requests[r].results + [v]
    ensures SlotsQueued(t.queue, r) + SlotsOf(t.requests[r].results) == owed
  {
    hide SlotsQueued, SlotsOf;
    SlotsOfAppend(s.requests[r].results, s.queue[k].res.value);
  }

  lemma NotifyTurn(s: Server, k: nat, res: Option<Json>, x: nat)
    requires Conserved(s) && Good(s) && k < |s.queue| && s.queue[k].Invoke? && s.queue[k].req == None
    ensures var t := Advance(s, Turn(k, res));
            Good(t) && t == s.(queue := t.queue) && SlotsQueued(t.queue, x) == SlotsQueued(s.queue, x)
  {
    SlotsRemove(s.queue, k, x);
    InQueue(s.queue, k);
    hide SlotsQueued, Conserved;
  }

  lemma AdvanceGood(s: Server, st: Step)
    requires Conserved(s) && Good(s) && (st.Turn? ==> st.k < |s.queue|)
    ensures Good(Advance(s, st))
  {
    match st
    case Incoming(obj, arg) =>
      assert Balanced(s, s.next);
      ArriveGood(s, obj, arg);
    case Turn(k, res) =>
      if s.queue[k].Result? { ResultGood(s, k, res); }
      else if s.queue[k].req.Some? { InvokeGood(s, k, res); }
      else { NotifyTurn(s, k, res, 0); }
  }

  lemma AdvanceServed(s: Server, st: Step, r: nat, batch: bool, arg: nat, owed: multiset<Slot>)
    returns (now: multiset<Slot>)
    requires Conserved(s) && Good(s) && (st.Turn? ==> st.k < |s.queue|) && Served(s, r, batch, arg, owed)
    ensures Served(Advance(s, st), r, batch, arg, now)
    ensures var hs := HandledBy(s, st, r); now + Spent(hs) == owed + Earned(hs)
  {
    now := owed;
    assert Spent([]) == multiset{} && Earned([]) == multiset{};
    match st
    case Incoming(obj, a) =>
      assert Balanced(s, s.next);
      ArriveKeepsServed(s, obj, a, r, batch, arg, owed);
    case Turn(k, res) =>
      if s.queue[k].Result? { ResultServed(s, k, res, r, batch, arg, owed); }
      else if s.queue[k].req.Some? { now := InvokeServed(s, k, res, r, batch, arg, owed); }
      else { NotifyTurn(s, k, res, r); }
  }

  // ----- whole schedules -----

  /** A schedule is played from left to right; None when it fires an event that is not there. */
  function Play(s: Server, sched: seq<Step>): (r: Option<Server>)
    requires Conserved(s)
    ensures r.Some? ==> Conserved(r.value)
  {
    if sched == [] then Some(s)
    else
      var st := sched[|sched| - 1];
      match Play(s, sched[..|sched| - 1])
      case None => None
      case Some(t) => if st.Turn? && st.k >= |t.queue| then None else AdvanceConserved(t, st); Some(Advance(t, st))
  }

  /** The turns of r's handlers in a schedule, in the order in which they happen. */
  function Handled(s: Server, sched: seq<Step>, r: nat): seq<Handling>
    requires Conserved(s) && Play(s, sched).Some?
  {
    if sched == [] then []
    else
      var init := sched[..|sched| - 1];
      Handled(s, init, r) + HandledBy(Play(s, init).value, sched[|sched| - 1], r)
  }

  lemma NothingSpent()
    ensures Spent([]) == multiset{} && RepliesTo([]) == [] && Earned([]) == multiset{}
  {
  }

  lemma SpentOne(hs: seq<Handling>, h: Handling)
    ensures Spent(hs + [h]) == Spent(hs) + multiset{Pending(h.call)}
    ensures RepliesTo(hs + [h]) == RepliesTo(hs) + ReplyOf(h)
  {
    assert (hs + [h])[..|hs|] == hs;
    hide ReplyTo;
  }

  lemma EarnedOne(hs: seq<Handling>, h: Handling)
    ensures Earned(hs + [h]) == Earned(hs) + SlotsOf(ReplyOf(h))
  {
    SpentOne(hs, h);
    if ReplyOf(h) == [] {
      assert RepliesTo(hs) + [] == RepliesTo(hs);
    } else {
      var v := ReplyOf(h)[0];
      assert ReplyOf(h) == [] + [v];
      hide RepliesTo, ReplyOf, Spent;
      SlotsOfAppend(RepliesTo(hs), v);
      SlotsOfAppend([], v);
    }
  }

  lemma SpentAppend(hs: seq<Handling>, more: seq<Handling>)
    requires |more| <= 1
    ensures Spent(hs + more) == Spent(hs) + Spent(more)
    ensures Earned(hs + more) == Earned(hs) + Earned(more)
  {
    NothingSpent();
    if more == [] {
      assert hs + more == hs;
    } else {
      var h := more[0];
      assert more == [h] && [] + [h] == [h];
      hide Spent, Earned, ReplyOf;
      SpentOne(hs, h);
      SpentOne([], h);
      EarnedOne(hs, h);
      EarnedOne([], h);
    }
  }

  lemma Telescope(a: multiset<Slot>, b: multiset<Slot>, c: multiset<Slot>, spent: multiset<Slot>,
                  earned: multiset<Slot>,
                  more: multiset<Slot>, gain: multiset<Slot>)
    requires b + spent == a + earned && c + more == b + gain
    ensures c + (spent + more) == a + (earned + gain)
  {
    assert c + (spent + more) == (c + more) + spent;
    assert (b + gain) + spent == (b + spent) + gain;
    assert (a + earned) + gain == a + (earned + gain);
  }

  lemma {:induction false} PlayServed(s: Server, sched: seq<Step>, r: nat, batch: bool, arg: nat, owed: multiset<Slot>)
    returns (now: multiset<Slot>)
    requires Conserved(s) && Good(s) && Served(s, r, batch, arg, owed) && Play(s, sched).Some?
    ensures Good(Play(s, sched).value) && Served(Play(s, sched).value, r, batch, arg, now)
    ensures var hs := Handled(s, sched, r); now + Spent(hs) == owed + Earned(hs)
  {
    hide Good, Served, Conserved, Advance;
    if sched == [] {
      now := owed;
      assert Spent([]) == multiset{} && Earned([]) == multiset{};
    } else {
      var init, st := sched[..|sched| - 1], sched[|sched| - 1];
      var t := Play(s, init).value;
      var before := PlayServed(s, init, r, batch, arg, owed);
      AdvanceGood(t, st);
      now := AdvanceServed(t, st, r, batch, arg, before);
      var hs, more := Handled(s, init, r), HandledBy(t, st, r);
      SpentAppend(hs, more);
      Telescope(owed, before, now, Spent(hs), Earned(hs), Spent(more), Earned(more));
    }
  }

  lemma {:induction false} CallsPositive(ds: seq<Delivery>, i: nat, r: nat)
    requires i < |ds| && ds[i].req == Some(r)
    ensures Calls(ds, r) > 0
  {
    if i < |ds| - 1 { CallsPositive(ds[..|ds| - 1], i, r); }
  }

  /** A message comes in. */
  function Accept(s: Server, obj: Json, arg: nat): (t: Server)
    requires Conserved(s)
    ensures Conserved(t)
  {
    ArriveConserved(s, obj, arg);
    Process(s, obj, arg)
  }

  // ----- slots by kind -----

  lemma CallCounts(methods: seq<Method>, r: nat, call: Json, e: Event, v: Json)
    ensures SlotsOfCall(methods, r, call)[Pending(e)] == Bag(Asked(methods, r, call))[e]
    ensures SlotsOfCall(methods, r, call)[Given(v)] == Bag(Refused(methods, call))[v]
  {
    hide Asked, Refused;
  }

  lemma {:induction false} OwedCounts(methods: seq<Method>, r: nat, calls: seq<Json>, e: Event, v: Json)
    ensures SlotsOfCalls(methods, r, calls)[Pending(e)] == AskedAll(methods, r, calls)[e]
    ensures SlotsOfCalls(methods, r, calls)[Given(v)] == RefusedAll(methods, calls)[v]
  {
    hide Asked, Refused, SlotsOfCall, Bag;
    if calls != [] {
      OwedCounts(methods, r, calls[..|calls| - 1], e, v);
      CallCounts(methods, r, calls[|calls| - 1], e, v);
    }
  }

  lemma {:induction false} SpentCounts(hs: seq<Handling>, e: Event, v: Json)
    ensures Spent(hs)[Pending(e)] == multiset(CallsIn(hs))[e] && Spent(hs)[Given(v)] == 0
  {
    if hs != [] { SpentCounts(hs[..|hs| - 1], e, v); }
  }

  lemma {:induction false} GivenCounts(rs: seq<Json>, e: Event, v: Json)
    ensures SlotsOf(rs)[Pending(e)] == 0 && SlotsOf(rs)[Given(v)] == multiset(rs)[v]
  {
    if rs != [] {
      GivenCounts(rs[..|rs| - 1], e, v);
      assert rs == rs[..|rs| - 1] + [rs[|rs| - 1]];
    }
  }

  lemma BalanceAt(methods: seq<Method>, r: nat, obj: Json, hs: seq<Handling>, rs: seq<Json>, e: Event, v: Json)
    requires SlotsOf(rs) + Spent(hs) == Owed(methods, r, obj) + Earned(hs)
    ensures multiset(CallsIn(hs))[e] == AskedAll(methods, r, Elements(obj))[e]
    ensures multiset(rs)[v] == RefusedAll(methods, Elements(obj))[v] + multiset(RepliesTo(hs))[v]
  {
    OwedCounts(methods, r, Elements(obj), e, v);
    SpentCounts(hs, e, v);
    GivenCounts(rs, e, v);
    GivenCounts(RepliesTo(hs), e, v);
    assert Owed(methods, r, obj) == SlotsOfCalls(methods, r, Elements(obj)) && Earned(hs) == SlotsOf(RepliesTo(hs));
    hide SlotsOf, Spent, Owed, Earned, SlotsOfCalls, AskedAll, RefusedAll, CallsIn, RepliesTo;
    Equals(SlotsOf(rs), Spent(hs), Owed(methods, r, obj), Earned(hs), Pending(e));
    Equals(SlotsOf(rs), Spent(hs), Owed(methods, r, obj), Earned(hs), Given(v));
  }

  /** When only replies are left, the balance says that the answers are right. */
  lemma Balance(methods: seq<Method>, r: nat, obj: Json, hs: seq<Handling>, rs: seq<Json>)
    requires SlotsOf(rs) + Spent(hs) == Owed(methods, r, obj) + Earned(hs) && forall v | v in rs :: IsReply(v)
    ensures Answers(methods, r, obj, hs, rs)
  {
    var asked, refused := AskedAll(methods, r, Elements(obj)), RefusedAll(methods, Elements(obj));
    forall e: Event ensures multiset(CallsIn(hs))[e] == asked[e] {
      BalanceAt(methods, r, obj, hs, rs, e, Null);
    }
    forall v: Json ensures multiset(rs)[v] == refused[v] + multiset(RepliesTo(hs))[v] {
      BalanceAt(methods, r, obj, hs, rs, Invoke(0, None, None, None), v);
    }
    hide AskedAll, RefusedAll, CallsIn, RepliesTo, SlotsOf, Spent, Owed, Earned, IsReply;
    SameCounts(multiset(CallsIn(hs)), asked, multiset{});
    SameCounts(multiset(rs), refused, multiset(RepliesTo(hs)));
    assert asked + multiset{} == asked;
  }

  lemma SameCounts<T>(a: multiset<T>, b: multiset<T>, c: multiset<T>)
    requires forall x: T :: a[x] == b[x] + c[x]
    ensures a == b + c
  {
    forall x: T ensures a[x] == (b + c)[x] {}
  }

  lemma Equals(a: multiset<Slot>, b: multiset<Slot>, c: multiset<Slot>, d: multiset<Slot>, x: Slot)
    requires a + b == c + d
    ensures a[x] + b[x] == c[x] + d[x]
  {
    assert (a + b)[x] == (c + d)[x];
  }

  /** On the way, too, no handler gets a turn that was not asked for, or one turn too many. */
  lemma BalanceBound(methods: seq<Method>, r: nat, obj: Json, hs: seq<Handling>, now: multiset<Slot>)
    requires now + Spent(hs) == Owed(methods, r, obj) + Earned(hs)
    ensures multiset(CallsIn(hs)) <= AskedAll(methods, r, Elements(obj))
  {
    forall e: Event ensures multiset(CallsIn(hs))[e] <= AskedAll(methods, r, Elements(obj))[e] {
      OwedCounts(methods, r, Elements(obj), e, Null);
      SpentCounts(hs, e, Null);
      GivenCounts(RepliesTo(hs), e, Null);
      Equals(now, Spent(hs), Owed(methods, r, obj), Earned(hs), Pending(e));
    }
  }

  /** The one call of `user_cb` for r: the right answers to obj, given the turns its handlers had. */
  ghost predicate Answered(d: Delivery, methods: seq<Method>, r: nat, obj: Json, arg: nat, hs: seq<Handling>) {
    && d.req == Some(r) && d.arg == arg && d.obj.Some? && (obj.Arr? ==> d.obj.value.Arr?)
    && Answers(methods, r, obj, hs, Replies(obj.Arr?, d.obj))
  }

  /**
   Id integrity and at-most-once, for every schedule. Take a call or batch that asks for some answer, whatever else
   is going on, and play any schedule in which handlers return inside their callbacks and other messages keep coming
   in. Then `user_cb` has been called for it once if its record is gone and never if it is not; no handler had a turn
   that was not asked for; an empty queue means `user_cb` has been called. What it was given is right: each handler
   asked for has had exactly one turn, and there is, in some order, exactly one reply per turn, with what that very
   handler returned under the id of that very call, and one per element that is refused.
   */
  lemma AnsweredOnce(s: Server, obj: Json, arg: nat, sched: seq<Step>)
    requires Conserved(s) && Good(s) && WantsAnswer(obj) && Play(Accept(s, obj, arg), sched).Some?
    ensures var t := Play(Accept(s, obj, arg), sched).value;
            var r := s.next; var hs := Handled(Accept(s, obj, arg), sched, r);
            && Calls(t.deliveries, r) == (if r in t.requests then 0 else 1)
            && (t.queue == [] ==> r !in t.requests)
            && multiset(CallsIn(hs)) <= AskedAll(s.methods, r, Elements(obj))
            && (r !in t.requests ==>
                  exists i :: 0 <= i < |t.deliveries| && Answered(t.deliveries[i], s.methods, r, obj, arg, hs))
  {
    var s1, r := Accept(s, obj, arg), s.next;
    var owed := Owed(s.methods, r, obj);
    assert s1 == Process(s, obj, arg) && Balanced(s, r);
    ArriveServed(s, obj, arg);
    ArriveGood(s, obj, arg);
    hide Process, Owed;
    var now := PlayServed(s1, sched, r, obj.Arr?, arg, owed);
    var t, hs := Play(s1, sched).value, Handled(s1, sched, r);
    assert Balanced(t, r) && Settled(t, r);
    assert t.owing == multiset{};
    BalanceBound(s.methods, r, obj, hs, now);
    if r !in t.requests {
      var i :| 0 <= i < |t.deliveries| && AnsweredBy(t.deliveries[i], r, obj.Arr?, arg, now);
      hide *;
      hide Conserved, Good, Play, Handled, Accept;
      AnsweredRight(s.methods, t.deliveries[i], r, obj, arg, hs, now);
      CallsPositive(t.deliveries, i, r);
    }
  }

  lemma AnsweredRight(methods: seq<Method>, d: Delivery, r: nat, obj: Json, arg: nat, hs: seq<Handling>,
                      now: multiset<Slot>)
    requires AnsweredBy(d, r, obj.Arr?, arg, now) && now + Spent(hs) == Owed(methods, r, obj) + Earned(hs)
    ensures d.req == Some(r) && Answered(d, methods, r, obj, arg, hs)
  {
    Balance(methods, r, obj, hs, Replies(obj.Arr?, d.obj));
  }

  /** Once a request is gone, or never had a record, nobody is called for it any more. */
  lemma StaysSilent(s: Server, a: Action, r: nat)
    requires Conserved(s) && Enabled(s, a) && r < s.next && r !in s.requests
    ensures var t := Next(s, a); r < t.next && r !in t.requests && Calls(t.deliveries, r) <= Calls(s.deliveries, r)
  {
    hide *;
    StaysGone(s, a, r);
    if Calls(Next(s, a).deliveries, r) > Calls(s.deliveries, r) { DeliversLast(s, a, r); }
  }

  lemma StaysGone(s: Server, a: Action, r: nat)
    requires Conserved(s) && Enabled(s, a) && r < s.next && r !in s.requests
    ensures r < Next(s, a).next && r !in Next(s, a).requests
  {
    AllLive(s);
    hide Conserved, Process, MakeReply;
    match a
    case Arrive(obj, arg) => OthersGone(s, obj, arg, r);
    case _ =>
  }

  /** A message that comes in makes no record but its own. */
  lemma OthersGone(s: Server, obj: Json, arg: nat, r: nat)
    requires r < s.next && r !in s.requests
    ensures r < Process(s, obj, arg).next && r !in Process(s, obj, arg).requests
  {
    hide Dispatch, DispatchAll;
    if obj.Obj? { DispatchFacts(Create(s, false, arg), s.next, obj); }
    else if obj.Arr? && obj.elems != [] { DispatchAllFacts(Create(s, true, arg), s.next, obj.elems); }
  }

  /** A notification, or a batch of nothing else, leaves no record behind, so it is never answered. */
  lemma NotificationsUnanswered(s: Server, obj: Json, arg: nat)
    requires Conserved(s) && !WantsAnswer(obj) && (obj.Obj? || (obj.Arr? && obj.elems != []))
    ensures var t := Process(s, obj, arg); s.next < t.next && s.next !in t.requests && Calls(t.deliveries, s.next) == 0
  {
    assert Settled(s, s.next);
    if obj.Obj? {
      DispatchFacts(Create(s, false, arg), s.next, obj);
    } else {
      DispatchAllFacts(Create(s, true, arg), s.next, obj.elems);
    }
  }

  // ----- progress -----

  /** A queued call is worth two callbacks, a queued result one. */
  function Work(q: seq<Event>): nat {
    if q == [] then 0 else Work(q[..|q| - 1]) + if q[|q| - 1].Invoke? then 2 else 1
  }

  lemma WorkAppend(q: seq<Event>, e: Event)
    ensures Work(q + [e]) == Work(q) + if e.Invoke? then 2 else 1
  {
    assert (q + [e])[..|q|] == q;
  }

  lemma {:induction false} WorkRemove(q: seq<Event>, k: nat)
    requires k < |q|
    ensures Work(q) == Work(q[..k] + q[k + 1..]) + if q[k].Invoke? then 2 else 1
  {
    if k == |q| - 1 {
      assert q[..k] + q[k + 1..] == q[..k];
    } else {
      var init, last := q[..|q| - 1], q[|q| - 1];
      WorkRemove(init, k);
      assert q == init + [last];
      RemoveAppend(init, last, k);
      WorkAppend(init[..k] + init[k + 1..], last);
    }
  }

  /** Every callback brings the queue closer to empty. */
  lemma TurnWorks(s: Server, k: nat, res: Option<Json>)
    requires Conserved(s) && k < |s.queue|
    ensures Work(Advance(s, Turn(k, res)).queue) < Work(s.queue)
  {
    AllLive(s);
    WorkRemove(s.queue, k);
    var e := s.queue[k];
    if e.Invoke? && e.req.Some? {
      InvokeShape(s, k, res);
      WorkAppend(s.queue[..k] + s.queue[k + 1..], Result(e.req.value, MakeReply(e.savedId, res), e.savedId));
    }
  }

  /**
   Progress: with no more messages coming in, any schedule ends within as many callbacks as the queue is
   worth, whatever the order; together with `AnsweredOnce` every request is answered by then.
   */
  lemma {:induction false} Bounded(s: Server, turns: seq<Step>)
    requires Conserved(s) && (forall st | st in turns :: st.Turn?) && Play(s, turns).Some?
    ensures |turns| + Work(Play(s, turns).value.queue) <= Work(s.queue)
  {
    if turns != [] {
      var init, st := turns[..|turns| - 1], turns[|turns| - 1];
      Bounded(s, init);
      TurnWorks(Play(s, init).value, st.k, st.res);
    }
  }
}
