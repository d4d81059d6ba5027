/** A whole exchange: a client registers and sends, a server answers in its own time, the client gets the answer. */
module Exchange {
  import opened Values
  import opened Equality
  import opened Messages
  import opened Protocol
  import opened Schedules
  import opened Client

  // ----- the ids in a reply -----

  lemma {:induction false} IdsOfReplies(rs: seq<Json>)
    requires forall v | v in rs :: IsReply(v)
    ensures |Ids(rs)| == |rs|
  {
    if rs != [] {
      IdsOfReplies(rs[..|rs| - 1]);
      assert rs[|rs| - 1] in rs;
    }
  }

  lemma {:induction false} AskedFrom(methods: seq<Method>, r: nat, calls: seq<Json>, e: Event)
    ensures e in AskedAll(methods, r, calls) <==> exists p :: 0 <= p < |calls| && Asked(methods, r, calls[p]) == Some(e)
  {
    hide Asked;
    if calls != [] {
      var init := calls[..|calls| - 1];
      AskedFrom(methods, r, init, e);
      assert Asked(methods, r, calls[|init|]) == Some(e) ==> e in AskedAll(methods, r, calls);
      if p :| 0 <= p < |init| && Asked(methods, r, init[p]) == Some(e) {
        assert calls[p] == init[p];
      } else if p :| 0 <= p < |calls| && Asked(methods, r, calls[p]) == Some(e) {
        assert p == |init|;
      }
    }
  }

  lemma {:induction false} RefusedFrom(methods: seq<Method>, calls: seq<Json>, v: Json)
    ensures v in RefusedAll(methods, calls) <==> exists p :: 0 <= p < |calls| && Refused(methods, calls[p]) == Some(v)
  {
    hide Refused;
    if calls != [] {
      var init := calls[..|calls| - 1];
      RefusedFrom(methods, init, v);
      assert Refused(methods, calls[|init|]) == Some(v) ==> v in RefusedAll(methods, calls);
      if p :| 0 <= p < |init| && Refused(methods, init[p]) == Some(v) {
        assert calls[p] == init[p];
      } else if p :| 0 <= p < |calls| && Refused(methods, calls[p]) == Some(v) {
        assert p == |init|;
      }
    }
  }

  lemma {:induction false} CallsFrom(hs: seq<Handling>, e: Event)
    ensures |CallsIn(hs)| == |hs|
    ensures e in CallsIn(hs) <==> exists i :: 0 <= i < |hs| && hs[i].call == e
  {
    if hs != [] {
      var init := hs[..|hs| - 1];
      CallsFrom(init, e);
      if i :| 0 <= i < |init| && init[i].call == e {
        assert hs[i] == init[i];
      } else if i :| 0 <= i < |hs| && hs[i].call == e {
        assert i == |init|;
      }
    }
  }

  lemma {:induction false} RepliesFrom(hs: seq<Handling>, v: Json)
    ensures v in RepliesTo(hs) <==> exists i :: 0 <= i < |hs| && ReplyTo(hs[i]) == Some(v)
  {
    hide ReplyTo;
    if hs != [] {
      var init := hs[..|hs| - 1];
      RepliesFrom(init, v);
      if i :| 0 <= i < |init| && ReplyTo(init[i]) == Some(v) {
        assert hs[i] == init[i];
      } else if i :| 0 <= i < |hs| && ReplyTo(hs[i]) == Some(v) {
        assert i == |init|;
      }
    }
  }

  lemma {:induction false} RepliesCount(hs: seq<Handling>)
    requires forall h | h in hs :: ReplyTo(h).Some?
    ensures |RepliesTo(hs)| == |hs|
  {
    hide ReplyTo;
    if hs != [] {
      assert hs[|hs| - 1] in hs;
      RepliesCount(hs[..|hs| - 1]);
    }
  }

  /** The id an element is answered under. */
  function AnswerId(call: Json): Option<Json> {
    match CallTypeOf(call)
    case InvalidCall => Some(Null)
    case NotificationCall => None
    case RequestCall => Get(call, "id")
  }

  lemma AnswerIs(methods: seq<Method>, r: nat, call: Json)
    ensures var e, v := Asked(methods, r, call), Refused(methods, call);
            && (e.Some? ==> e.value.Invoke? && e.value.savedId == AnswerId(call))
            && (v.Some? ==> Get(v.value, "id") == AnswerId(call))
            && (AnswerId(call).Some? <==> e.Some? || v.Some?) && !(e.Some? && v.Some?)
  {
    OneAnswer(methods, r, call);
    if CallTypeOf(call) == RequestCall {
      RequestId(call);
      RepliesAreResponses(Get(call, "id").value, None);
    } else {
      RepliesAreResponses(Null, None);
    }
    hide InvalidReply, NotFoundReply, FindMethod, MethodName, IsCall, IsReply, Get, MakeReply, ErrorCode, GoodEvent;
  }

  lemma ReplyToIs(h: Handling)
    requires h.call.Invoke? && h.call.savedId.Some?
    ensures ReplyTo(h).Some? && Get(ReplyTo(h).value, "id") == h.call.savedId
  {
    ReplyContents(h.call.savedId, h.res);
    hide MakeReply, Get;
  }

  /** Each turn answers some element of the batch. */
  lemma TurnAnswers(methods: seq<Method>, r: nat, calls: seq<Json>, hs: seq<Handling>, i: nat) returns (p: nat)
    requires multiset(CallsIn(hs)) == AskedAll(methods, r, calls) && i < |hs|
    ensures p < |calls| && Asked(methods, r, calls[p]) == Some(hs[i].call)
    ensures ReplyTo(hs[i]).Some? && Get(ReplyTo(hs[i]).value, "id") == AnswerId(calls[p]) && AnswerId(calls[p]).Some?
  {
    var e := hs[i].call;
    CallsFrom(hs, e);
    assert e in multiset(CallsIn(hs));
    AskedFrom(methods, r, calls, e);
    hide CallsIn, AskedAll, Asked, ReplyTo, AnswerId, Get;
    p :| 0 <= p < |calls| && Asked(methods, r, calls[p]) == Some(e);
    AnswerIs(methods, r, calls[p]);
    ReplyToIs(hs[i]);
  }

  /** How many replies: one for each element with an answer. */
  lemma RepliesCounted(methods: seq<Method>, r: nat, calls: seq<Json>, hs: seq<Handling>, rs: seq<Json>)
    requires Answers(methods, r, Arr(calls), hs, rs)
    ensures |Ids(rs)| == |rs| == |AskedAll(methods, r, calls)| + |RefusedAll(methods, calls)|
  {
    IdsOfReplies(rs);
    forall h | h in hs ensures ReplyTo(h).Some? {
      var i :| 0 <= i < |hs| && hs[i] == h;
      var p := TurnAnswers(methods, r, calls, hs, i);
    }
    RepliesCount(hs);
    CallsFrom(hs, Invoke(0, None, None, None));
    hide IsReply, CallsIn, RepliesTo, AskedAll, RefusedAll, Ids, ReplyTo;
    assert |rs| == |multiset(rs)| && |multiset(RepliesTo(hs))| == |hs| && |multiset(CallsIn(hs))| == |hs|;
  }

  /** The ids in a reply are those its elements are answered under. */
  lemma ReplyIds(methods: seq<Method>, r: nat, calls: seq<Json>, hs: seq<Handling>, rs: seq<Json>, x: Json)
    requires Answers(methods, r, Arr(calls), hs, rs)
    ensures x in Ids(rs) <==> exists p :: 0 <= p < |calls| && AnswerId(calls[p]) == Some(x)
  {
    IdsFrom(rs, x);
    if x in Ids(rs) {
      var q :| 0 <= q < |rs| && Get(rs[q], "id") == Some(x);
      var p := ReplyElement(methods, r, calls, hs, rs, q);
    }
    if p :| 0 <= p < |calls| && AnswerId(calls[p]) == Some(x) {
      var q := ElementReply(methods, r, calls, hs, rs, p);
    }
  }

  lemma ReplyElement(methods: seq<Method>, r: nat, calls: seq<Json>, hs: seq<Handling>, rs: seq<Json>, q: nat)
    returns (p: nat)
    requires Answers(methods, r, Arr(calls), hs, rs) && q < |rs|
    ensures p < |calls| && AnswerId(calls[p]) == Get(rs[q], "id")
  {
    assert rs[q] in multiset(rs);
    hide IsReply, CallsIn, AskedAll, RefusedAll, RepliesTo, Asked, Refused, ReplyTo, AnswerId, Get;
    if rs[q] in RefusedAll(methods, calls) {
      RefusedFrom(methods, calls, rs[q]);
      p :| 0 <= p < |calls| && Refused(methods, calls[p]) == Some(rs[q]);
      AnswerIs(methods, r, calls[p]);
    } else {
      assert rs[q] in RepliesTo(hs);
      RepliesFrom(hs, rs[q]);
      var i :| 0 <= i < |hs| && ReplyTo(hs[i]) == Some(rs[q]);
      p := TurnAnswers(methods, r, calls, hs, i);
    }
  }

  lemma ElementReply(methods: seq<Method>, r: nat, calls: seq<Json>, hs: seq<Handling>, rs: seq<Json>, p: nat)
    returns (q: nat)
    requires Answers(methods, r, Arr(calls), hs, rs) && p < |calls| && AnswerId(calls[p]).Some?
    ensures q < |rs| && Get(rs[q], "id") == AnswerId(calls[p])
  {
    hide IsReply, CallsIn, AskedAll, RefusedAll, RepliesTo, Asked, Refused, ReplyTo, AnswerId, Get;
    AnswerIs(methods, r, calls[p]);
    var e, v := Asked(methods, r, calls[p]), Refused(methods, calls[p]);
    var reply;
    if v.Some? {
      reply := v.value;
      RefusedFrom(methods, calls, reply);
    } else {
      AskedFrom(methods, r, calls, e.value);
      assert e.value in multiset(CallsIn(hs));
      CallsFrom(hs, e.value);
      var i :| 0 <= i < |hs| && hs[i].call == e.value;
      ReplyToIs(hs[i]);
      reply := ReplyTo(hs[i]).value;
      RepliesFrom(hs, reply);
      assert reply in multiset(RepliesTo(hs));
    }
    assert reply in multiset(rs);
    q :| 0 <= q < |rs| && rs[q] == reply;
  }

  lemma {:induction false} CountIds(methods: seq<Method>, r: nat, calls: seq<Json>)
    requires forall c | c in calls :: CallTypeOf(c) == InvalidCall ==> Get(c, "id") == Some(Null)
    ensures |Ids(calls)| == |AskedAll(methods, r, calls)| + |RefusedAll(methods, calls)|
  {
    if calls != [] {
      var init, c := calls[..|calls| - 1], calls[|calls| - 1];
      CountIds(methods, r, init);
      AnswerIs(methods, r, c);
      assert c in calls;
      AnswersCount(methods, r, calls);
    }
  }

  lemma AnswersCount(methods: seq<Method>, r: nat, calls: seq<Json>)
    requires calls != []
    ensures var init, c := calls[..|calls| - 1], calls[|calls| - 1];
            |AskedAll(methods, r, calls)| + |RefusedAll(methods, calls)|
            == |AskedAll(methods, r, init)| + |RefusedAll(methods, init)| + if AnswerId(c).Some? then 1 else 0
  {
    AnswerIs(methods, r, calls[|calls| - 1]);
    hide Asked, Refused, AnswerId;
  }

  /** How many elements have an id, against how many are answered: equal only when every invalid one has an id. */
  lemma {:induction false} CountBound(methods: seq<Method>, r: nat, calls: seq<Json>)
    ensures |Ids(calls)| <= |AskedAll(methods, r, calls)| + |RefusedAll(methods, calls)|
    ensures |Ids(calls)| == |AskedAll(methods, r, calls)| + |RefusedAll(methods, calls)| ==>
              forall c | c in calls :: CallTypeOf(c) == InvalidCall ==> Get(c, "id").Some?
  {
    if calls != [] {
      var init, c := calls[..|calls| - 1], calls[|calls| - 1];
      CountBound(methods, r, init);
      AnswersCount(methods, r, calls);
      hide AskedAll, RefusedAll;
      assert CallTypeOf(c) == NotificationCall ==> Get(c, "id") == None;
      forall d | d in calls ensures d in init || d == c {}
    }
  }

  lemma SameLengthAll(xs: seq<Json>, ys: seq<Json>)
    requires |xs| == |ys| && forall x | x in xs :: Occurs(x, ys)
    ensures Equal(Arr(xs), Arr(ys))
  {
    hide Occurs;
  }

  lemma IdAnswered(methods: seq<Method>, r: nat, calls: seq<Json>, hs: seq<Handling>, rs: seq<Json>, x: Json)
    requires Answers(methods, r, Arr(calls), hs, rs) && x in Ids(calls) && Keyed(x)
    requires forall c | c in calls :: CallTypeOf(c) == InvalidCall ==> Get(c, "id") == Some(Null)
    ensures Occurs(x, Ids(rs))
  {
    IdsFrom(calls, x);
    var p :| 0 <= p < |calls| && Get(calls[p], "id") == Some(x);
    assert calls[p] in calls && AnswerId(calls[p]) == Some(x);
    hide AnswerId, Answers, Ids, Get, CallTypeOf, Equal, Keyed;
    ReplyIds(methods, r, calls, hs, rs, x);
    Reflexive(x);
    var ys := Ids(rs);
    var j :| 0 <= j < |ys| && ys[j] == x;
    assert Equal(x, ys[j]);
  }

  /** When every invalid element carries the id null, the reply's ids are the batch's ids in another order. */
  lemma ReplyMatches(methods: seq<Method>, r: nat, calls: seq<Json>, hs: seq<Handling>, rs: seq<Json>)
    requires Answers(methods, r, Arr(calls), hs, rs) && DistinctIds(calls)
    requires forall c | c in calls :: CallTypeOf(c) == InvalidCall ==> Get(c, "id") == Some(Null)
    ensures Equal(Arr(Ids(calls)), Arr(Ids(rs)))
  {
    CountIds(methods, r, calls);
    RepliesCounted(methods, r, calls, hs, rs);
    IdsProper(calls);
    var xs, ys := Ids(calls), Ids(rs);
    forall x | x in xs ensures Occurs(x, ys) {
      IdAnswered(methods, r, calls, hs, rs, x);
    }
    hide Answers, DistinctIds, Ids, Proper, AskedAll, RefusedAll;
    SameLengthAll(xs, ys);
  }

  /** The id of a refused element, unless null, equals nothing that the batch is answered under. */
  lemma NoPartner(calls: seq<Json>, q: nat, p: nat, x: Json, y: Json)
    requires DistinctIds(calls) && q < |calls| && p < |calls|
    requires CallTypeOf(calls[q]) == InvalidCall && Get(calls[q], "id") == Some(x) && x != Null
    requires AnswerId(calls[p]) == Some(y)
    ensures !Equal(x, y)
  {
    hide IsCall, Get;
  }

  lemma Differ(xs: seq<Json>, ys: seq<Json>, x: Json)
    requires x in xs && !Occurs(x, ys)
    ensures !Equal(Arr(xs), Arr(ys))
  {
    hide Occurs;
  }

  lemma LengthsDiffer(xs: seq<Json>, ys: seq<Json>)
    requires |xs| != |ys|
    ensures !Equal(Arr(xs), Arr(ys))
  {
  }

  /** An invalid element with any other id spoils the match: its answer carries null. */
  lemma ReplyMismatches(methods: seq<Method>, r: nat, calls: seq<Json>, hs: seq<Handling>, rs: seq<Json>, q: nat)
    requires Answers(methods, r, Arr(calls), hs, rs) && DistinctIds(calls)
    requires q < |calls| && CallTypeOf(calls[q]) == InvalidCall && Get(calls[q], "id") != Some(Null)
    ensures !Equal(Arr(Ids(calls)), Arr(Ids(rs)))
  {
    CountBound(methods, r, calls);
    RepliesCounted(methods, r, calls, hs, rs);
    assert calls[q] in calls;
    var xs, ys := Ids(calls), Ids(rs);
    if |xs| == |ys| {
      var x := Get(calls[q], "id");
      assert x.Some?;
      hide Answers, DistinctIds, Ids, AskedAll, RefusedAll, CallTypeOf, Get;
      NotAmong(methods, r, calls, hs, rs, q);
      Differ(xs, ys, x.value);
    } else {
      hide Answers, DistinctIds, Ids, AskedAll, RefusedAll, CallTypeOf, Get;
      LengthsDiffer(xs, ys);
    }
  }

  lemma NotAmong(methods: seq<Method>, r: nat, calls: seq<Json>, hs: seq<Handling>, rs: seq<Json>, q: nat)
    requires Answers(methods, r, Arr(calls), hs, rs) && DistinctIds(calls)
    requires q < |calls| && CallTypeOf(calls[q]) == InvalidCall && Get(calls[q], "id").Some?
            && Get(calls[q], "id").value != Null
    ensures var x := Get(calls[q], "id").value; x in Ids(calls) && !Occurs(x, Ids(rs))
  {
    hide CallTypeOf, DistinctIds, AnswerId, Answers, Ids, Get, Equal;
    var x := Get(calls[q], "id").value;
    IdsFrom(calls, x);
    forall j | 0 <= j < |Ids(rs)| ensures !Equal(x, Ids(rs)[j]) {
      ReplyIds(methods, r, calls, hs, rs, Ids(rs)[j]);
      var p :| 0 <= p < |calls| && AnswerId(calls[p]) == Some(Ids(rs)[j]);
      NoPartner(calls, q, p, x, Ids(rs)[j]);
    }
  }

  /**
   Which replies find their call. For a batch whose ids `json_equals` can tell apart, the ids of the right answer
   equal the registered ones if and only if every element the server refuses as invalid carries the id null.
   */
  lemma ReplyMatchesExactly(methods: seq<Method>, r: nat, calls: seq<Json>, hs: seq<Handling>, rs: seq<Json>)
    requires Answers(methods, r, Arr(calls), hs, rs) && DistinctIds(calls)
    ensures Equal(Arr(Ids(calls)), Arr(Ids(rs))) <==>
            forall c | c in calls :: CallTypeOf(c) == InvalidCall ==> Get(c, "id") == Some(Null)
  {
    if q :| 0 <= q < |calls| && CallTypeOf(calls[q]) == InvalidCall && Get(calls[q], "id") != Some(Null) {
      ReplyMismatches(methods, r, calls, hs, rs, q);
      assert calls[q] in calls;
    } else {
      ReplyMatches(methods, r, calls, hs, rs);
    }
  }

  // ----- the whole exchange -----

  /** A call with an id, or a batch of calls with ids that can be told apart, at least one of them. */
  ghost predicate Sendable(req: Json) {
    if req.Arr? then
      && (forall c | c in req.elems :: CallTypeOf(c) != InvalidCall)
      && DistinctIds(req.elems) && Ids(req.elems) != []
    else CallTypeOf(req) == RequestCall
  }

  lemma SendableId(req: Json)
    requires Sendable(req)
    ensures IdOf(req).Some? && Proper(IdOf(req).value)
  {
    if req.Arr? { IdsProper(req.elems); }
  }

  /** The right answer to a sendable request bears an id equal to the request's. */
  lemma AnswerHasId(methods: seq<Method>, r: nat, req: Json, hs: seq<Handling>, reply: Json)
    requires Sendable(req) && (req.Arr? ==> reply.Arr?) && Answers(methods, r, req, hs, RepliesIn(req, reply))
    ensures IsResponse(reply) && IdOf(reply).Some? && Equal(IdOf(req).value, IdOf(reply).value)
  {
    if req.Arr? {
      ReplyMatches(methods, r, req.elems, hs, reply.elems);
    } else {
      SingleAnswer(methods, r, req, hs, reply);
    }
  }

  lemma SingleAnswer(methods: seq<Method>, r: nat, req: Json, hs: seq<Handling>, reply: Json)
    requires CallTypeOf(req) == RequestCall && Answers(methods, r, req, hs, [reply])
    ensures IsResponse(reply) && IdOf(reply).Some? && Equal(IdOf(req).value, IdOf(reply).value)
  {
    assert req.Obj? && !req.Arr?;
    assert Answers(methods, r, Arr([req]), hs, [reply]);
    var q := ElementReply(methods, r, [req], hs, [reply], 0);
    assert reply in [reply] && IsReply(reply);
    RequestId(req);
    hide Answers, Get;
  }

  /**
   End to end. A sendable request reaches a server; any schedule of callbacks follows, with handlers returning in
   their callbacks and other messages coming in, until its queue is empty. Then the server has called `user_cb` for
   it exactly once, with the right answers: what the handlers it asked for returned, each under its own id. If the
   client, whose pending calls can be told apart, still has an entry for the request, processing that reply calls
   this entry's callback, removes this entry and no other, and the same reply processed again calls nothing.
   */
  lemma EndToEnd(s: Server, req: Json, arg: nat, sched: seq<Step>, cbs: seq<Entry>, k: nat) returns (reply: Json)
    requires Conserved(s) && Good(s) && Sendable(req)
    requires var t := Play(Accept(s, req, arg), sched); t.Some? && t.value.queue == []
    requires Separate(cbs) && k < |cbs| && IdOf(req).Some? && Equal(cbs[k].id, IdOf(req).value)
    ensures var t := Play(Accept(s, req, arg), sched).value;
            Calls(t.deliveries, s.next) == 1 && Delivery(Some(s.next), arg, Some(reply)) in t.deliveries
    ensures var hs := Handled(Accept(s, req, arg), sched, s.next);
            Answers(s.methods, s.next, req, hs, RepliesIn(req, reply)) && (req.Arr? ==> reply.Arr?)
    ensures Respond(cbs, reply) == (cbs[..k] + cbs[k + 1..], Some(cbs[k].callback))
    ensures Respond(cbs[..k] + cbs[k + 1..], reply) == (cbs[..k] + cbs[k + 1..], None)
  {
    reply := ServerAnswers(s, req, arg, sched);
    var hs := Handled(Accept(s, req, arg), sched, s.next);
    hide Play, Handled, Accept, Good, Conserved, Answers, Separate, Sendable, Respond;
    ClientGets(s.methods, s.next, req, hs, reply, cbs, k);
  }

  function RepliesIn(req: Json, reply: Json): seq<Json> {
    if !req.Arr? then [reply] else if reply.Arr? then reply.elems else []
  }

  lemma AnsweredIs(d: Delivery, methods: seq<Method>, r: nat, req: Json, arg: nat, hs: seq<Handling>)
    requires Answered(d, methods, r, req, arg, hs)
    ensures d.obj.Some? && d == Delivery(Some(r), arg, Some(d.obj.value)) && (req.Arr? ==> d.obj.value.Arr?)
    ensures Answers(methods, r, req, hs, RepliesIn(req, d.obj.value))
  {
    hide Answers;
  }

  lemma ServerAnswers(s: Server, req: Json, arg: nat, sched: seq<Step>) returns (reply: Json)
    requires Conserved(s) && Good(s) && Sendable(req)
    requires var t := Play(Accept(s, req, arg), sched); t.Some? && t.value.queue == []
    ensures var t := Play(Accept(s, req, arg), sched).value;
            Calls(t.deliveries, s.next) == 1 && Delivery(Some(s.next), arg, Some(reply)) in t.deliveries
    ensures var hs := Handled(Accept(s, req, arg), sched, s.next);
            Answers(s.methods, s.next, req, hs, RepliesIn(req, reply)) && (req.Arr? ==> reply.Arr?)
  {
    SendableWants(req);
    AnsweredOnce(s, req, arg, sched);
    var start := Accept(s, req, arg);
    var t, hs := Play(start, sched).value, Handled(start, sched, s.next);
    hide *;
    var i :| 0 <= i < |t.deliveries| && Answered(t.deliveries[i], s.methods, s.next, req, arg, hs);
    AnsweredIs(t.deliveries[i], s.methods, s.next, req, arg, hs);
    reply := t.deliveries[i].obj.value;
  }

  /** The right answers, once they arrive, reach the pending call of the request they answer, and no other. */
  lemma ClientGets(methods: seq<Method>, r: nat, req: Json, hs: seq<Handling>, reply: Json, cbs: seq<Entry>, k: nat)
    requires Sendable(req) && (req.Arr? ==> reply.Arr?) && Answers(methods, r, req, hs, RepliesIn(req, reply))
    requires Separate(cbs) && k < |cbs| && IdOf(req).Some? && Equal(cbs[k].id, IdOf(req).value)
    ensures Respond(cbs, reply) == (cbs[..k] + cbs[k + 1..], Some(cbs[k].callback))
    ensures Respond(cbs[..k] + cbs[k + 1..], reply) == (cbs[..k] + cbs[k + 1..], None)
  {
    AnswerHasId(methods, r, req, hs, reply);
    SendableId(req);
    SeparateProper(cbs, k);
    Transitive(cbs[k].id, IdOf(req).value, IdOf(reply).value);
    hide Answers, Separate, Sendable, Respond, IsResponse, IdOf, Equal;
    ResponseFindsCall(cbs, k, reply);
  }

  lemma SeparateProper(cbs: seq<Entry>, k: nat)
    requires Separate(cbs) && k < |cbs|
    ensures Proper(cbs[k].id)
  {
  }

  lemma {:induction false} SomeCall(calls: seq<Json>)
    requires Ids(calls) != [] && forall c | c in calls :: CallTypeOf(c) != InvalidCall
    ensures ExpectedAll(calls) > 0
  {
    var init, c := calls[..|calls| - 1], calls[|calls| - 1];
    assert c in calls;
    if Ids(init) != [] { SomeCall(init); }
  }

  lemma SendableWants(req: Json)
    requires Sendable(req)
    ensures WantsAnswer(req)
  {
    if req.Arr? { SomeCall(req.elems); }
  }
}
