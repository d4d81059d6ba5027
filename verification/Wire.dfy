/**
 The whole program in one exchange: a request is printed, cut into pieces, parsed by the server, dispatched, answered
 through the event loop, printed, cut and parsed again, and its reply finds the pending call.
 */
module Wire {
  import opened Values
  import opened Lexical
  import opened Machine
  import opened Printing
  import opened Parser
  import opened Sessions
  import opened Equality
  import opened Messages
  import opened Protocol
  import opened Schedules
  import opened Engine
  import opened Client
  import opened Exchange
  import opened Entries

  // ----- replies can be printed and parsed -----

  /** ASCII text without quote and backslash. */
  predicate AllPlain(t: string) { forall c | c in t :: Plain(c) }

  lemma {:induction false} PlainIsText(t: string)
    requires AllPlain(t)
    ensures IsText(t)
  {
    if t != "" {
      var n := |t| - 1;
      assert forall c | c in t[..n] :: c in t;
      PlainIsText(t[..n]);
      assert t[n] in t && IsToken(t[n..]);
    }
  }

  /** No array or object in the tree is empty. */
  ghost predicate NoEmpty(v: Json) {
    match v
    case Arr(es) => es != [] && forall e | e in es :: NoEmpty(e)
    case Obj(ms) => ms != [] && forall m | m in ms :: NoEmpty(m.value)
    case _ => true
  }

  lemma {:induction false} NoEmptyBoxes(v: Json)
    ensures NoEmpty(v) <==> EmptyBoxes(v) == 0
    decreases v, 1
  {
    match v
    case Arr(es) => NoEmptyElems(es);
    case Obj(ms) => NoEmptyMembers(ms);
    case _ =>
  }

  lemma {:induction false} NoEmptyElems(es: seq<Json>)
    ensures (forall e | e in es :: NoEmpty(e)) <==> EmptyElems(es) == 0
    decreases es, 0
  {
    if es != [] {
      var init, e := es[..|es| - 1], es[|es| - 1];
      NoEmptyElems(init);
      NoEmptyBoxes(e);
      assert e in es && forall d :: d in es <==> d in init || d == e;
      hide NoEmpty, EmptyBoxes;
    }
  }

  lemma {:induction false} NoEmptyMembers(ms: seq<Member>)
    ensures (forall m | m in ms :: NoEmpty(m.value)) <==> EmptyMembers(ms) == 0
    decreases ms, 0
  {
    if ms != [] {
      var init, m := ms[..|ms| - 1], ms[|ms| - 1];
      NoEmptyMembers(init);
      NoEmptyMember(m);
      assert m in ms && forall d :: d in ms <==> d in init || d == m;
      hide NoEmpty, EmptyBoxes;
    }
  }

  lemma {:induction false} NoEmptyMember(m: Member)
    ensures NoEmpty(m.value) <==> EmptyMember(m) == 0
    decreases m, 0
  {
    NoEmptyBoxes(m.value);
  }

  /** A value that survives the way over the wire: it parses to itself, and its text fits its print buffer. */
  ghost predicate Wired(v: Json) { Printable(v) && NoEmpty(v) }

  /** The entries of an object under construction. */
  ghost predicate WiredEntries(ms: seq<Member>) { Printable(Obj(ms)) && forall m | m in ms :: NoEmpty(m.value) }

  lemma GetWired(v: Json, key: string)
    requires Wired(v) && Get(v, key).Some?
    ensures Wired(Get(v, key).value)
  {
    FoundEntry(v.members, key);
  }

  lemma PutWired(ms: seq<Member>, key: string, v: Json)
    requires WiredEntries(ms) && Wired(v) && AllPlain(key)
    ensures var w := With(ms, key, v); WiredEntries(w) && Wired(Obj(w)) && DistinctKeys(w)
    ensures Put(Some(Obj(ms)), key, Some(v)) == Some(Obj(With(ms, key, v)))
  {
    PlainIsText(key);
    WithKeepsKeyed(ms, key, v);
    WithoutEntries(ms, key);
    forall m | m in With(ms, key, v)
      ensures DoubleFree(m.value) && IsText(m.key) && AllText(m.value) && NoEmpty(m.value)
    {
      assert m == Member(key, v) || m in Without(ms, key);
    }
  }

  lemma KeysPlain()
    ensures AllPlain("jsonrpc") && AllPlain("id") && AllPlain("error") && AllPlain("result") && AllPlain("method")
    ensures AllPlain("message") && AllPlain("code") && AllPlain("m") && AllPlain(VERSION)
  {
  }

  lemma InternalPlain()
    ensures AllPlain("Internal error")
  {
  }

  lemma InvalidPlain()
    ensures AllPlain("Invalid request")
  {
  }

  lemma NotFoundPlain()
    ensures AllPlain("Method not found")
  {
  }

  lemma TextWired(t: string)
    requires AllPlain(t)
    ensures Wired(Str(t))
  {
    PlainIsText(t);
  }

  lemma ThreeEntries(key: string, v: Json, id: Json)
    requires Wired(v) && Wired(id) && AllPlain(key)
    ensures var r := Put(Put(Put(Some(Obj([])), "jsonrpc", Some(Str(VERSION))), key, Some(v)), "id", Some(id));
            r.Some? && r.value.Obj? && Wired(r.value)
  {
    KeysPlain();
    TextWired(VERSION);
    Nothing();
    hide Wired, WiredEntries, Put, With, AllPlain;
    PutWired([], "jsonrpc", Str(VERSION));
    var a := With([], "jsonrpc", Str(VERSION));
    PutWired(a, key, v);
    PutWired(With(a, key, v), "id", id);
  }

  lemma Nothing()
    ensures WiredEntries([])
  {
  }

  lemma ErrorWired(message: string, code: Int32, id: Json)
    requires Wired(id) && AllPlain(message)
    ensures var r := PrepareError(message, code, Some(id)); r.Some? && r.value.Obj? && Wired(r.value)
  {
    KeysPlain();
    TextWired(message);
    assert Wired(Int(code));
    Nothing();
    hide Wired, WiredEntries, Put, With, AllPlain;
    PutWired([], "message", Str(message));
    PutWired(With([], "message", Str(message)), "code", Int(code));
    var e := Obj(With(With([], "message", Str(message)), "code", Int(code)));
    assert ErrorObject(message, code) == Some(e);
    ThreeEntries("error", e, id);
  }

  lemma ReplyWired(id: Json, res: Option<Json>)
    requires Wired(id) && (res.Some? ==> Wired(res.value))
    ensures var r := MakeReply(Some(id), res); r.Some? && r.value.Obj? && Wired(r.value)
  {
    KeysPlain();
    InternalPlain();
    hide Wired, AllPlain;
    if res.Some? {
      ThreeEntries("result", res.value, id);
    } else {
      assert PrepareResponse(Some(id), None) == None;
      ErrorWired("Internal error", INTERNAL_ERROR, id);
    }
  }

  lemma NotFoundWired(id: Json)
    requires Wired(id)
    ensures var r := NotFoundReply(id); r.Some? && r.value.Obj? && Wired(r.value)
  {
    NotFoundPlain();
    hide Wired, PrepareError, AllPlain;
    ErrorWired("Method not found", METHOD_NOT_FOUND, id);
  }

  lemma InvalidWired()
    ensures var r := InvalidReply(); r.Some? && r.value.Obj? && Wired(r.value)
  {
    InvalidPlain();
    assert Wired(Null);
    hide Wired, PrepareError, AllPlain;
    ErrorWired("Invalid request", INVALID_REQUEST, Null);
  }

  lemma RefusalWired(methods: seq<Method>, call: Json)
    requires Wired(call) && Refused(methods, call).Some?
    ensures var v := Refused(methods, call).value; v.Obj? && Wired(v)
  {
    var id := Null;
    if CallTypeOf(call) == RequestCall {
      RequestId(call);
      GetWired(call, "id");
      id := Get(call, "id").value;
    }
    assert Wired(id);
    hide Wired, CallTypeOf, NotFoundReply, InvalidReply, Get, FindMethod, MethodName;
    NotFoundWired(id);
    InvalidWired();
  }

  /** What handlers return can be printed. */
  ghost predicate WiredResults(sched: seq<Step>) {
    forall st | st in sched :: st.Turn? && st.res.Some? ==> Wired(st.res.value)
  }

  lemma {:induction false} HandledResults(s: Server, sched: seq<Step>, r: nat)
    requires Conserved(s) && Play(s, sched).Some? && WiredResults(sched)
    ensures forall h | h in Handled(s, sched, r) :: h.res.Some? ==> Wired(h.res.value)
  {
    hide Conserved, Wired;
    if sched != [] {
      var init := sched[..|sched| - 1];
      assert sched[|sched| - 1] in sched;
      HandledResults(s, init, r);
    }
  }

  lemma AnswersWired(methods: seq<Method>, r: nat, req: Json, hs: seq<Handling>, rs: seq<Json>, v: Json)
    requires Answers(methods, r, req, hs, rs) && v in rs && forall c | c in Elements(req) :: Wired(c)
    requires forall h | h in hs :: h.res.Some? ==> Wired(h.res.value)
    ensures v.Obj? && Wired(v)
  {
    var calls := Elements(req);
    assert v in multiset(rs);
    hide Wired, AskedAll, RefusedAll, CallsIn, RepliesTo, Asked, Refused, IsReply;
    if v in RefusedAll(methods, calls) {
      RefusedFrom(methods, calls, v);
      var p :| 0 <= p < |calls| && Refused(methods, calls[p]) == Some(v);
      assert calls[p] in calls;
      RefusalWired(methods, calls[p]);
    } else {
      assert v in RepliesTo(hs);
      RepliesFrom(hs, v);
      var i :| 0 <= i < |hs| && ReplyTo(hs[i]) == Some(v);
      assert hs[i] in hs;
      HandlerCall(methods, r, calls, hs, i);
      ReplyWired(hs[i].call.savedId.value, hs[i].res);
    }
  }

  lemma HandlerCall(methods: seq<Method>, r: nat, calls: seq<Json>, hs: seq<Handling>, i: nat)
    requires multiset(CallsIn(hs)) == AskedAll(methods, r, calls) && i < |hs| && forall c | c in calls :: Wired(c)
    ensures hs[i].call.Invoke? && hs[i].call.savedId.Some? && Wired(hs[i].call.savedId.value)
  {
    var p := TurnAnswers(methods, r, calls, hs, i);
    AnswerIs(methods, r, calls[p]);
    assert calls[p] in calls;
    RequestOnly(methods, r, calls[p]);
    GetWired(calls[p], "id");
  }

  lemma RequestOnly(methods: seq<Method>, r: nat, call: Json)
    requires Asked(methods, r, call).Some?
    ensures Get(call, "id").Some? && Asked(methods, r, call).value.savedId == Get(call, "id")
  {
    RequestId(call);
  }

  lemma DeliveredPrintable(methods: seq<Method>, r: nat, req: Json, hs: seq<Handling>, reply: Json)
    requires Wired(req) && Sendable(req) && (req.Arr? ==> reply.Arr?)
    requires Answers(methods, r, req, hs, RepliesIn(req, reply))
    requires forall h | h in hs :: h.res.Some? ==> Wired(h.res.value)
    ensures Wired(reply) && (reply.Arr? || reply.Obj?)
  {
    ElementsWired(req);
    forall v | v in RepliesIn(req, reply) ensures v.Obj? && Wired(v) {
      hide Wired, Answers, Sendable;
      AnswersWired(methods, r, req, hs, RepliesIn(req, reply), v);
    }
    if req.Arr? {
      SomeReply(methods, r, req.elems, hs, reply.elems);
      ArrayWired(reply.elems);
    } else {
      assert reply in RepliesIn(req, reply);
    }
  }

  /** A batch with an id in it has an answer. */
  lemma SomeReply(methods: seq<Method>, r: nat, calls: seq<Json>, hs: seq<Handling>, rs: seq<Json>)
    requires Sendable(Arr(calls)) && Answers(methods, r, Arr(calls), hs, rs)
    ensures rs != []
  {
    CountIds(methods, r, calls);
    RepliesCounted(methods, r, calls, hs, rs);
    hide Answers;
  }

  lemma ElementsWired(v: Json)
    requires Wired(v)
    ensures forall c | c in Elements(v) :: Wired(c)
  {
  }

  lemma ArrayWired(es: seq<Json>)
    requires es != [] && forall e | e in es :: Wired(e)
    ensures Wired(Arr(es))
  {
  }

  // ----- from one side to the other -----

  /** Printed arrays and objects arrive, however the bytes are cut and whenever the buffer may be drained. */
  method Transmit(vs: seq<Json>, chunks: seq<string>, drain: seq<bool>) returns (got: seq<Json>)
    requires |drain| == |chunks| && Joined(chunks) == Written(vs)
    requires forall v | v in vs :: Printable(v) && (v.Arr? || v.Obj?)
    ensures got == vs
  {
    StreamUndoesPrint(vs);
    var jp := new JsonParser(Main);
    hide Run, Printable, Written, Joined;
    var buf := Connection(jp, chunks, drain);
    got := jp.delivered;
    assert got == jp.Abs(buf).delivered;
  }

  /** `json_to_string` and the connection: the text fits the buffer allocated for it, and the value arrives. */
  method Send(v: Json, cut: string -> seq<string>) returns (got: Json)
    requires Wired(v) && (v.Arr? || v.Obj?) && forall t :: Joined(cut(t)) == t
    ensures got == v
  {
    var text, size := JsonToString(v);
    NoEmptyBoxes(v);
    assert size == |text| + 1;
    assert [v][..0] == [] && Written([]) == "" && Written([v]) == "" + text;
    assert "" + text == text;
    var chunks := cut(text);
    var values := Transmit([v], chunks, seq(|chunks|, i => true));
    got := values[0];
  }

  /** `struct json_rpc_tt` with its engine: the calls it serves and the calls it has made. */
  class Peer {
    const jr: JsonRpc
    const pending: PendingCalls

    constructor ()
      ensures fresh(jr) && fresh(pending) && Conserved(jr.State()) && Good(jr.State()) && pending.resultCbs == []
    {
      jr := new JsonRpc();
      pending := new PendingCalls();
    }

    /** `json_rpc_tt_read`: what looks like a response is one, everything else is a request. */
    method Read(obj: Json, arg: nat) returns (called: Option<nat>)
      requires Conserved(jr.State())
      modifies jr, pending
      ensures Conserved(jr.State())
      ensures IsResponse(obj) ==>
                jr.State() == old(jr.State()) && (pending.resultCbs, called) == Respond(old(pending.resultCbs), obj)
      ensures !IsResponse(obj) ==>
                && jr.State() == Accept(old(jr.State()), obj, arg)
                && pending.resultCbs == old(pending.resultCbs) && called == None
      ensures obj.Obj? && Keyed(obj) && Foreign(obj.members) ==>
                var s := old(jr.State());
                && pending.resultCbs == old(pending.resultCbs) && called == None
                && jr.State().queue
                   == s.queue + [Result(s.next, Some(ErrorReply("Invalid request", -32600, Null)), None)]
    {
      ForeignAccepted(jr.State(), obj, arg);
      hide *;
      var response := JsonRpcIsResponse(obj);
      if response {
        called := pending.ProcessResponse(obj);
      } else {
        jr.ProcessRequest(obj, arg);
        called := None;
      }
    }
  }

  lemma ForeignAccepted(s: Server, obj: Json, arg: nat)
    requires Conserved(s)
    ensures obj.Obj? && Keyed(obj) && Foreign(obj.members) ==>
              && !IsResponse(obj)
              && Accept(s, obj, arg).queue
                 == s.queue + [Result(s.next, Some(ErrorReply("Invalid request", -32600, Null)), None)]
  {
    hide Process, IsResponse, ErrorReply, Conserved;
    if obj.Obj? && Keyed(obj) && Foreign(obj.members) { ForeignRefused(s, obj.members, arg); }
  }

  // ----- requests that are taken for responses -----

  /** The element has what makes a response of it. */
  predicate LooksAnswered(call: Json) {
    Get(call, "result").Some? || (Get(call, "error").Some? && IsError(Get(call, "error").value))
  }

  /** Which requests a peer takes for a response: those all of whose elements have a result or an error object. */
  lemma SwallowedExactly(req: Json)
    requires Sendable(req)
    ensures IsResponse(req) <==> forall c | c in Elements(req) :: LooksAnswered(c)
  {
    if req.Arr? {
      forall c | c in req.elems ensures IsResponseObject(c) <==> LooksAnswered(c) {
        ObjectIsResponse(c);
      }
    } else {
      ObjectIsResponse(req);
    }
  }

  lemma ObjectIsResponse(c: Json)
    requires CallTypeOf(c) != InvalidCall
    ensures IsResponseObject(c) <==> LooksAnswered(c)
  {
    CallsAreNotResponses(c);
    assert c.Obj?;
    hide IsResponseObject, Get;
  }

  function SwallowedMembers(id: Int32): seq<Member> {
    [Member("jsonrpc", Str(VERSION)), Member("method", Str("m")), Member("id", Int(id)), Member("result", Bool(true))]
  }

  /** A request that is swallowed: a call that also has a member "result". */
  lemma SwallowedRequest(id: Int32)
    ensures var req := Obj(SwallowedMembers(id)); Sendable(req) && Wired(req) && IsResponse(req)
  {
    SwallowedGets(id);
    SwallowedIsWired(id);
    var req := Obj(SwallowedMembers(id));
    hide SwallowedMembers, Get, Wired;
    assert CallTypeOf(req) == RequestCall;
  }

  lemma SwallowedGets(id: Int32)
    ensures var req := Obj(SwallowedMembers(id));
            && Get(req, "jsonrpc") == Some(Str(VERSION)) && Get(req, "method") == Some(Str("m"))
            && Get(req, "id") == Some(Int(id)) && Get(req, "result") == Some(Bool(true)) && Get(req, "params") == None
  {
    var ms := SwallowedMembers(id);
    DistinctNames(id);
    assert Member("jsonrpc", Str(VERSION)) == ms[0] && Member("method", Str("m")) == ms[1];
    assert Member("id", Int(id)) == ms[2] && Member("result", Bool(true)) == ms[3];
    LookupFindsEntries(ms, "jsonrpc", Str(VERSION));
    LookupFindsEntries(ms, "method", Str("m"));
    LookupFindsEntries(ms, "id", Int(id));
    LookupFindsEntries(ms, "result", Bool(true));
    if Lookup(ms, "params").Some? { LookupFindsEntries(ms, "params", Lookup(ms, "params").value); }
    hide Lookup;
  }

  lemma EntriesWired(ms: seq<Member>)
    requires ms != [] && DistinctKeys(ms) && forall m | m in ms :: IsText(m.key) && Wired(m.value)
    ensures Wired(Obj(ms))
  {
    hide IsText;
  }

  lemma SwallowedIsWired(id: Int32)
    ensures Wired(Obj(SwallowedMembers(id)))
  {
    DistinctNames(id);
    assert SwallowedMembers(id) != [];
    hide *;
    SwallowedEntries(id);
    EntriesWired(SwallowedMembers(id));
  }

  lemma SwallowedEntries(id: Int32)
    ensures forall m | m in SwallowedMembers(id) :: IsText(m.key) && Wired(m.value)
  {
    KeysPlain();
    NumbersWired(id);
    var ms := SwallowedMembers(id);
    assert forall m | m in ms :: m == ms[0] || m == ms[1] || m == ms[2] || m == ms[3];
    assert ms[0] == Member("jsonrpc", Str(VERSION)) && ms[1] == Member("method", Str("m"));
    assert ms[2] == Member("id", Int(id)) && ms[3] == Member("result", Bool(true));
    hide *;
    PlainIsText("jsonrpc");
    PlainIsText("method");
    PlainIsText("id");
    PlainIsText("result");
    TextWired(VERSION);
    TextWired("m");
  }

  lemma NumbersWired(id: Int32)
    ensures Wired(Int(id)) && Wired(Bool(true))
  {
  }

  lemma DistinctNames(id: Int32)
    ensures DistinctKeys(SwallowedMembers(id))
    ensures "params" != "jsonrpc" && "params" != "method" && "params" != "id" && "params" != "result"
  {
    assert "jsonrpc"[0] == 'j' && "method"[0] == 'm' && "id"[0] == 'i' && "result"[0] == 'r' && "params"[0] == 'p';
  }

  // ----- a whole exchange -----

  lemma {:induction false} OneDelivery(ds: seq<Delivery>, r: nat, i: nat, j: nat)
    requires Calls(ds, r) == 1 && i < j < |ds|
    requires ds[i].req == Some(r) && ds[j].req == Some(r)
    ensures false
  {
    var init := ds[..|ds| - 1];
    if j < |ds| - 1 {
      assert init[i] == ds[i] && init[j] == ds[j];
      CallsPositive(init, j, r);
      OneDelivery(init, r, i, j);
    } else {
      CallsPositive(init, i, r);
    }
  }

  /** The reply `user_cb` was given for r. */
  method FindDelivery(ds: seq<Delivery>, r: nat, ghost d: Delivery) returns (reply: Json)
    requires Calls(ds, r) == 1 && d in ds && d.req == Some(r) && d.obj.Some?
    ensures Some(reply) == d.obj
  {
    ghost var j :| 0 <= j < |ds| && ds[j] == d;
    var i := 0;
    while ds[i].req != Some(r)
      invariant 0 <= i <= j
      decreases j - i
    {
      i := i + 1;
    }
    if i < j {
      OneDelivery(ds, r, i, j);
    }
    reply := ds[i].obj.value;
  }

  lemma AcceptGood(s: Server, req: Json, arg: nat)
    requires Conserved(s) && Good(s)
    ensures Accept(s, req, arg) == Process(s, req, arg) && Good(Accept(s, req, arg))
  {
    assert Balanced(s, s.next);
    ArriveGood(s, req, arg);
  }

  /** When the server has taken the request for one, and has emptied its queue, it sends the right answer. */
  method Answer(server: Peer, req: Json, arg: nat, sched: seq<Step>, r: nat, ghost s: Server, ghost start: Server)
    returns (reply: Json)
    requires Conserved(s) && Good(s) && Sendable(req) && Wired(req) && r == s.next && start == Accept(s, req, arg)
    requires server.jr.State() == start && WiredResults(sched)
    requires Play(start, sched).Some? && Play(start, sched).value.queue == []
    modifies server.jr
    ensures Wired(reply) && (reply.Arr? || reply.Obj?) && (req.Arr? ==> reply.Arr?)
    ensures Answers(s.methods, r, req, Handled(start, sched, r), RepliesIn(req, reply))
  {
    ghost var sent := ServerAnswers(s, req, arg, sched);
    ghost var end := Play(start, sched).value;
    ghost var d := Delivery(Some(r), arg, Some(sent));
    assert Calls(end.deliveries, r) == 1 && d in end.deliveries;
    AnswerWired(s, req, arg, sched, sent);
    hide *;
    EventLoop(server.jr, sched);
    assert server.jr.deliveries == end.deliveries;
    reply := FindDelivery(server.jr.deliveries, r, d);
  }

  lemma AnswerWired(s: Server, req: Json, arg: nat, sched: seq<Step>, sent: Json)
    requires Conserved(s) && Good(s) && Sendable(req) && Wired(req) && Play(Accept(s, req, arg), sched).Some?
    requires WiredResults(sched) && (req.Arr? ==> sent.Arr?)
    requires Answers(s.methods, s.next, req, Handled(Accept(s, req, arg), sched, s.next), RepliesIn(req, sent))
    ensures Good(Accept(s, req, arg)) && Wired(sent) && (sent.Arr? || sent.Obj?)
  {
    hide *;
    AcceptGood(s, req, arg);
    HandledResults(Accept(s, req, arg), sched, s.next);
    DeliveredPrintable(s.methods, s.next, req, Handled(Accept(s, req, arg), sched, s.next), sent);
  }

  /**
   One request and its reply over two connections: the client registers the request and sends it, the server reads
   it, works, and sends what it has to answer, and the client reads that. Whatever the server is doing besides, however
   the texts are cut, and in whatever order callbacks fire until the queue is empty, the server answers if and only if
   the request does not look like a response; then the client's callback is called, with the right answers, and its
   entry is removed. Otherwise the server takes it for a response to a call of its own, and the
   entry stays pending.
   */
  method Conversation(client: Peer, server: Peer, req: Json, callback: nat, arg: nat, sched: seq<Step>,
                      cut: string -> seq<string>)
    returns (reply: Option<Json>, called: Option<nat>)
    requires client.jr != server.jr && client.pending != server.pending
    requires Conserved(server.jr.State()) && Good(server.jr.State()) && Conserved(client.jr.State())
    requires Sendable(req) && Wired(req) && Separate(client.pending.resultCbs)
    requires !IsResponse(req) ==>
               var t := Play(Accept(server.jr.State(), req, arg), sched); t.Some? && t.value.queue == []
    requires WiredResults(sched) && forall t :: Joined(cut(t)) == t
    modifies client.jr, client.pending, server.jr, server.pending
    ensures reply.Some? <==> !IsResponse(req)
    ensures Register(old(client.pending.resultCbs), req, callback).Some?
    ensures reply == None ==>
              && server.jr.State() == old(server.jr.State()) && called == None
              && server.pending.resultCbs == Respond(old(server.pending.resultCbs), req).0
              && client.pending.resultCbs == Register(old(client.pending.resultCbs), req, callback).value
    ensures reply.Some? ==>
              var s := old(server.jr.State());
              Answers(s.methods, s.next, req, Handled(Accept(s, req, arg), sched, s.next), RepliesIn(req, reply.value))
    ensures reply.Some? ==>
              var cbs := Register(old(client.pending.resultCbs), req, callback).value;
              var k := FindEntry(cbs, IdOf(req).value);
              && k < |cbs| && cbs[k].callback == callback && called == Some(callback)
              && client.pending.resultCbs == cbs[..k] + cbs[k + 1..]
    ensures reply.Some? ==> client.pending.resultCbs == Others(old(client.pending.resultCbs), IdOf(req).value)
    ensures forall e | e in old(client.pending.resultCbs) && !Equal(e.id, IdOf(req).value) ::
              e in client.pending.resultCbs
  {
    hide *;
    ghost var s := server.jr.State();
    ghost var registered, k := BeforeSending(client.pending.resultCbs, req, callback);
    ghost var start := Accept(s, req, arg);
    var r := NextRecord(server);
    var swallowed := SendRequest(client, server, req, callback, arg, cut);
    if swallowed {
      return None, None;
    }
    var answer := Answer(server, req, arg, sched, r, s, start);
    called := ReceiveReply(client, req, answer, arg, cut, s.methods, r, Handled(start, sched, r), k);
    reply := Some(answer);
  }

  /** The other calls of the client, before the answer and after it. */
  lemma OthersPending(cbs: seq<Entry>, registered: seq<Entry>, k: nat, id: Json)
    requires Separate(registered) && k < |registered| && Equal(registered[k].id, id)
    requires Others(registered, id) == Others(cbs, id)
    ensures registered[..k] + registered[k + 1..] == Others(cbs, id)
    ensures forall e | e in cbs && !Equal(e.id, id) :: e in registered && e in Others(cbs, id)
  {
    hide *;
    OthersStay(registered, k, id);
    forall e | e in cbs && !Equal(e.id, id) ensures e in registered && e in Others(cbs, id) {
      OthersAre(cbs, id, e);
      OthersAre(registered, id, e);
    }
  }

  /** The number of the record that the server will make next. */
  method NextRecord(server: Peer) returns (r: nat)
    ensures r == server.jr.State().next
  {
    r := server.jr.next;
  }

  /** The client's registry with the request in it. */
  lemma BeforeSending(cbs: seq<Entry>, req: Json, callback: nat) returns (registered: seq<Entry>, k: nat)
    requires Separate(cbs) && Sendable(req)
    ensures (req.Arr? || req.Obj?) && IdOf(req).Some?
    ensures Register(cbs, req, callback) == Some(registered) && Separate(registered)
    ensures k == FindEntry(registered, IdOf(req).value) && k < |registered| && registered[k].callback == callback
    ensures Equal(registered[k].id, IdOf(req).value)
    ensures registered[..k] + registered[k + 1..] == Others(cbs, IdOf(req).value)
    ensures forall e | e in cbs && !Equal(e.id, IdOf(req).value) ::
              e in registered && e in Others(cbs, IdOf(req).value)
  {
    SendableId(req);
    RegisterSeparate(cbs, req, callback);
    registered := Register(cbs, req, callback).value;
    k := FindEntry(registered, IdOf(req).value);
    hide *;
    FoundIsEqual(registered, IdOf(req).value);
    OthersPending(cbs, registered, k, IdOf(req).value);
  }

  lemma FoundIsEqual(cbs: seq<Entry>, id: Json)
    ensures var k := FindEntry(cbs, id); k < |cbs| ==> Equal(cbs[k].id, id)
  {
  }

  /** `json_rpc_tt_send` on one side, `json_rpc_tt_read` on the other. */
  method SendRequest(client: Peer, server: Peer, req: Json, callback: nat, arg: nat, cut: string -> seq<string>)
    returns (swallowed: bool)
    requires client.jr != server.jr && client.pending != server.pending && Conserved(server.jr.State())
    requires Wired(req) && (req.Arr? || req.Obj?) && IdOf(req).Some? && forall t :: Joined(cut(t)) == t
    modifies client.pending, server.jr, server.pending
    ensures swallowed == IsResponse(req)
    ensures Register(old(client.pending.resultCbs), req, callback) == Some(client.pending.resultCbs)
    ensures swallowed ==>
              && server.jr.State() == old(server.jr.State())
              && server.pending.resultCbs == Respond(old(server.pending.resultCbs), req).0
    ensures !swallowed ==>
              server.jr.State() == Accept(old(server.jr.State()), req, arg) && Conserved(server.jr.State())
  {
    RegisteredSome(client.pending.resultCbs, req, callback);
    hide *;
    var ret := client.pending.Preprocess(req, callback);
    var received := Send(req, cut);
    var servers := server.Read(received, arg);
    swallowed := JsonRpcIsResponse(received);
  }

  lemma RegisteredSome(cbs: seq<Entry>, req: Json, callback: nat)
    requires IdOf(req).Some?
    ensures Register(cbs, req, callback).Some?
  {
  }

  /** The way back: the reply is a response, and finds the pending call. */
  method ReceiveReply(client: Peer, req: Json, answer: Json, arg: nat, cut: string -> seq<string>,
                      ghost methods: seq<Method>, ghost r: nat, ghost hs: seq<Handling>, ghost k: nat)
    returns (called: Option<nat>)
    requires Conserved(client.jr.State()) && Wired(answer) && (answer.Arr? || answer.Obj?)
    requires forall t :: Joined(cut(t)) == t
    requires Sendable(req) && (req.Arr? ==> answer.Arr?) && Answers(methods, r, req, hs, RepliesIn(req, answer))
    requires var cbs := client.pending.resultCbs;
             Separate(cbs) && k < |cbs| && IdOf(req).Some? && Equal(cbs[k].id, IdOf(req).value)
    modifies client.jr, client.pending
    ensures var cbs := old(client.pending.resultCbs);
            called == Some(cbs[k].callback) && client.pending.resultCbs == cbs[..k] + cbs[k + 1..]
  {
    AnswerHasId(methods, r, req, hs, answer);
    ClientGets(methods, r, req, hs, answer, client.pending.resultCbs, k);
    hide *;
    var got := Send(answer, cut);
    called := client.Read(got, arg);
  }
}
