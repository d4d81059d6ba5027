/**
 Who owns the ids. `dispatch_request_call` takes one reference to the id of each call; the reply that is made for the
 call uses one up. A handler returns under the id its record holds at that moment, so what it uses up is its own
 call's reference only as long as no other event of the record has fired since it was started. All that is said here
 is said for one id, whichever it is.
 */
module References {
  import opened Values
  import opened Messages
  import opened Protocol
  import opened Schedules
  import opened LateReturns

  // ----- what is taken, what waits -----

  function One(x: Option<Json>, id: Json): nat { if x == Some(id) then 1 else 0 }

  /** The references taken for an element. */
  function TakenFor(call: Json, id: Json): nat {
    if CallTypeOf(call) == RequestCall then One(Get(call, "id"), id) else 0
  }

  function TakenForAll(calls: seq<Json>, id: Json): nat {
    if calls == [] then 0 else TakenForAll(calls[..|calls| - 1], id) + TakenFor(calls[|calls| - 1], id)
  }

  /** The references used up at once by "Method not found". */
  function RefusedFor(methods: seq<Method>, call: Json, id: Json): nat {
    if FindMethod(methods, MethodName(call)) == None then TakenFor(call, id) else 0
  }

  function RefusedForAll(methods: seq<Method>, calls: seq<Json>, id: Json): nat {
    if calls == [] then 0
    else RefusedForAll(methods, calls[..|calls| - 1], id) + RefusedFor(methods, calls[|calls| - 1], id)
  }

  /** The references a queued call keeps. */
  function HeldBy(e: Event, id: Json): nat { if e.Invoke? && e.req.Some? then One(e.savedId, id) else 0 }

  function Held(q: seq<Event>, id: Json): nat {
    if q == [] then 0 else Held(q[..|q| - 1], id) + HeldBy(q[|q| - 1], id)
  }

  // ----- the books -----

  /** References to an id: taken, used by refusals, handed to handlers started, used by the replies of returns. */
  datatype Ledger = Ledger(taken: nat, refused: nat, started: nat, returned: nat) {
    function Plus(more: Ledger): Ledger {
      Ledger(taken + more.taken, refused + more.refused, started + more.started, returned + more.returned)
    }
  }

  /** What one action does to the references. */
  function Entry(s: Server, a: Action, id: Json): Ledger
    requires Conserved(s) && Enabled(s, a)
  {
    AllLive(s);
    match a
    case Arrive(obj, _) =>
      Ledger(TakenForAll(Elements(obj), id), RefusedForAll(s.methods, Elements(obj), id), 0, 0)
    case Fire(k) => Ledger(0, 0, HeldBy(s.queue[k], id), 0)
    case Reply(r, _) => Ledger(0, 0, 0, One(s.requests[r].methodId, id))
  }

  function Books(s: Server, acts: seq<Action>, id: Json): Ledger
    requires Conserved(s) && Follow(s, acts).Some?
  {
    if acts == [] then Ledger(0, 0, 0, 0)
    else
      var init := acts[..|acts| - 1];
      Books(s, init, id).Plus(Entry(Follow(s, init).value, acts[|acts| - 1], id))
  }

  lemma HeldAppend(q: seq<Event>, e: Event, id: Json)
    ensures Held(q + [e], id) == Held(q, id) + HeldBy(e, id)
  {
    assert (q + [e])[..|q|] == q;
  }

  lemma {:induction false} HeldRemove(q: seq<Event>, k: nat, id: Json)
    requires k < |q|
    ensures Held(q, id) == Held(q[..k] + q[k + 1..], id) + HeldBy(q[k], id)
  {
    if k == |q| - 1 {
      assert q[..k] + q[k + 1..] == q[..k];
    } else {
      var init, last := q[..|q| - 1], q[|q| - 1];
      HeldRemove(init, k, id);
      RemoveAppend(init, last, k);
      assert q == init + [last];
      hide HeldBy, Held;
      HeldAppend(init, last, id);
      HeldAppend(init[..k] + init[k + 1..], last, id);
    }
  }

  /** A call queued keeps the reference taken for it; one refused has used it up. */
  lemma DispatchHeld(s: Server, r: nat, call: Json, id: Json)
    requires r in s.requests
    ensures Held(Dispatch(s, r, call).queue, id) + RefusedFor(s.methods, call, id)
            == Held(s.queue, id) + TakenFor(call, id)
  {
    DispatchQueue(s, r, call);
    EventHeld(s.methods, r, s.requests[r].methodId, call, id);
    var e := EventOf(s.methods, r, s.requests[r].methodId, call);
    hide *;
    if e.Some? { HeldAppend(s.queue, e.value, id); } else { assert s.queue + [] == s.queue; }
  }

  lemma EventHeld(methods: seq<Method>, r: nat, current: Option<Json>, call: Json, id: Json)
    ensures var e := EventOf(methods, r, current, call);
            (if e.Some? then HeldBy(e.value, id) else 0) + RefusedFor(methods, call, id) == TakenFor(call, id)
  {
    hide InvalidReply, NotFoundReply, FindMethod, MethodName;
  }

  lemma {:induction false} DispatchAllHeld(s: Server, r: nat, calls: seq<Json>, id: Json)
    requires r in s.requests
    ensures Held(DispatchAll(s, r, calls).queue, id) + RefusedForAll(s.methods, calls, id)
            == Held(s.queue, id) + TakenForAll(calls, id)
  {
    hide Dispatch, Held, RefusedFor, TakenFor;
    if calls != [] {
      var init := calls[..|calls| - 1];
      DispatchAllHeld(s, r, init, id);
      DispatchAllFacts(s, r, init);
      DispatchHeld(DispatchAll(s, r, init), r, calls[|calls| - 1], id);
    }
  }

  lemma ProcessHeld(s: Server, obj: Json, arg: nat, id: Json)
    ensures Held(Process(s, obj, arg).queue, id) + RefusedForAll(s.methods, Elements(obj), id)
            == Held(s.queue, id) + TakenForAll(Elements(obj), id)
  {
    hide Dispatch, DispatchAll, Held;
    if obj.Obj? {
      DispatchHeld(Create(s, false, arg), s.next, obj, id);
      assert [obj][..0] == [];
    } else if obj.Arr? && obj.elems != [] {
      DispatchAllHeld(Create(s, true, arg), s.next, obj.elems, id);
    } else {
      assert !obj.Arr? ==> [obj][..0] == [];
    }
  }

  /** One action, late returns included: what is taken is used by a refusal, waits in the queue or is handed over. */
  lemma EntryBalances(s: Server, a: Action, id: Json)
    requires Conserved(s) && Enabled(s, a)
    ensures var e := Entry(s, a, id);
            e.taken + Held(s.queue, id) == e.refused + e.started + Held(Next(s, a).queue, id)
  {
    AllLive(s);
    match a
    case Arrive(obj, arg) =>
      hide Process, Held;
      ProcessHeld(s, obj, arg, id);
    case Fire(k) =>
      hide Held, HeldBy;
      HeldRemove(s.queue, k, id);
    case Reply(r, res) =>
      hide Held, MakeReply;
      HeldAppend(s.queue, Return(s, r, res).queue[|s.queue|], id);
  }

  /** Whole runs: every reference taken has been used by a refusal, waits in the queue or was handed to a handler. */
  lemma {:induction false} BooksBalance(s: Server, acts: seq<Action>, id: Json)
    requires Conserved(s) && Follow(s, acts).Some?
    ensures var b := Books(s, acts, id);
            b.taken + Held(s.queue, id) == b.refused + b.started + Held(Follow(s, acts).value.queue, id)
  {
    hide Conserved, Next, Held, Entry, Enabled;
    if acts != [] {
      BooksBalance(s, acts[..|acts| - 1], id);
      EntryBalances(Follow(s, acts[..|acts| - 1]).value, acts[|acts| - 1], id);
    }
  }

  /**
   With no call of that id waiting at either end: the replies have used up as many references as were taken if and
   only if the handlers that returned did so under the id as often as handlers were started with it.
   */
  lemma UsedUpExactly(s: Server, acts: seq<Action>, id: Json)
    requires Conserved(s) && Follow(s, acts).Some? && Held(s.queue, id) == 0
    requires Held(Follow(s, acts).value.queue, id) == 0
    ensures var b := Books(s, acts, id); b.refused + b.returned == b.taken <==> b.returned == b.started
  {
    BooksBalance(s, acts, id);
  }

  // ----- handlers that return inside their callback -----

  /** A turn of a handler is its start and its return. */
  function ActionsOf(s: Server, st: Step): seq<Action>
    requires st.Turn? ==> st.k < |s.queue|
  {
    match st
    case Incoming(obj, arg) => [Arrive(obj, arg)]
    case Turn(k, res) =>
      var e := s.queue[k];
      if e.Invoke? && e.req.Some? then [Fire(k), Reply(e.req.value, res)] else [Fire(k)]
  }

  function AllActions(s: Server, sched: seq<Step>): seq<Action>
    requires Conserved(s) && Play(s, sched).Some?
  {
    if sched == [] then []
    else
      var init := sched[..|sched| - 1];
      AllActions(s, init) + ActionsOf(Play(s, init).value, sched[|sched| - 1])
  }

  lemma FollowOne(s: Server, acts: seq<Action>, a: Action, id: Json)
    requires Conserved(s) && Follow(s, acts).Some? && Enabled(Follow(s, acts).value, a)
    ensures Follow(s, acts + [a]) == Some(After(Follow(s, acts).value, a))
    ensures Books(s, acts + [a], id) == Books(s, acts, id).Plus(Entry(Follow(s, acts).value, a, id))
  {
    assert (acts + [a])[..|acts|] == acts;
    hide Conserved, Enabled, After, Entry;
  }

  /** A handler that returns inside its callback uses up the reference it was started with. */
  lemma StartAndReturn(s: Server, k: nat, res: Option<Json>, id: Json)
    requires Conserved(s) && k < |s.queue| && s.queue[k].Invoke? && s.queue[k].req.Some?
    ensures var t, back := After(s, Fire(k)), Reply(s.queue[k].req.value, res);
            && Enabled(t, back) && Advance(s, Turn(k, res)) == After(t, back)
            && Entry(s, Fire(k), id).started == Entry(t, back, id).returned
            && Entry(t, back, id).started == 0
  {
    Started(s, k);
    var t := After(s, Fire(k));
    assert t.requests[s.queue[k].req.value].methodId == s.queue[k].savedId;
    hide Conserved, MakeReply;
  }

  lemma TurnUses(s: Server, acts: seq<Action>, st: Step, id: Json)
    requires Conserved(s) && Follow(s, acts).Some?
    requires st.Turn? ==> st.k < |Follow(s, acts).value.queue|
    ensures var t := Follow(s, acts).value; var all := acts + ActionsOf(t, st);
            && Follow(s, all) == Some(Advance(t, st))
            && Books(s, all, id).started - Books(s, acts, id).started
                == Books(s, all, id).returned - Books(s, acts, id).returned
  {
    var t := Follow(s, acts).value;
    hide Conserved, Follow, Books;
    if st.Turn? && t.queue[st.k].Invoke? && t.queue[st.k].req.Some? {
      var start, back := Fire(st.k), Reply(t.queue[st.k].req.value, st.res);
      assert acts + [start, back] == acts + [start] + [back];
      assert ActionsOf(t, st) == [start, back] && Enabled(t, start);
      assert Entry(t, start, id).returned == 0;
      StartAndReturn(t, st.k, st.res, id);
      hide Entry, After, Advance, ActionsOf, Enabled;
      FollowOne(s, acts, start, id);
      FollowOne(s, acts + [start], back, id);
    } else {
      var a := if st.Turn? then Fire(st.k) else Arrive(st.obj, st.arg);
      assert ActionsOf(t, st) == [a] && Enabled(t, a) && After(t, a) == Advance(t, st);
      FollowOne(s, acts, a, id);
    }
  }

  /**
   Every schedule with handlers that return inside their callback: each reference taken has been used up exactly
   once, by a refusal or by the reply of a return, unless its call still waits in the queue.
   */
  lemma {:induction false} UsedOnce(s: Server, sched: seq<Step>, id: Json)
    requires Conserved(s) && Play(s, sched).Some?
    ensures var acts := AllActions(s, sched);
            && Follow(s, acts) == Play(s, sched)
            && var b := Books(s, acts, id); b.returned == b.started
    ensures var b := Books(s, AllActions(s, sched), id);
            b.taken + Held(s.queue, id) == b.refused + b.returned + Held(Play(s, sched).value.queue, id)
  {
    if sched != [] {
      var init := sched[..|sched| - 1];
      UsedOnce(s, init, id);
      TurnUses(s, AllActions(s, init), sched[|sched| - 1], id);
    }
    BooksBalance(s, AllActions(s, sched), id);
  }

  // ----- handlers that return later -----

  lemma TwoCallsTake(id: Int32)
    ensures TakenForAll(TWO_CALLS, Int(id)) == if id == 1 || id == 2 then 1 else 0
    ensures RefusedForAll(FRESH_SERVER.methods, TWO_CALLS, Int(id)) == 0
  {
    var c1, c2 := MakeCall("m", Int(1)), MakeCall("m", Int(2));
    CallGets("m", Int(1));
    CallGets("m", Int(2));
    assert TWO_CALLS[..1] == [c1] && [c1][..0] == [] && TWO_CALLS[1] == c2;
    assert FindMethod(FRESH_SERVER.methods, "m") == Some(0);
    hide MakeCall, Get, CallTypeOf, MethodName, FindMethod;
    assert TakenFor(c1, Int(id)) == (if id == 1 then 1 else 0) && RefusedFor(FRESH_SERVER.methods, c1, Int(id)) == 0;
    assert TakenFor(c2, Int(id)) == (if id == 2 then 1 else 0) && RefusedFor(FRESH_SERVER.methods, c2, Int(id)) == 0;
    hide TakenFor, RefusedFor;
    assert TakenForAll([c1], Int(id)) == (if id == 1 then 1 else 0);
    assert RefusedForAll(FRESH_SERVER.methods, [c1], Int(id)) == 0;
  }

  /** Both calls of the batch have been started: the record holds the second id. */
  lemma BothUnderWay()
    ensures Conserved(FRESH_SERVER)
    ensures var s := After(FRESH_SERVER, Arrive(Arr(TWO_CALLS), 0));
            && s.queue == [CallEvent(1), CallEvent(2)]
            && var t := After(s, Fire(0));
               && t.queue == [CallEvent(2)]
               && var u := After(t, Fire(0));
                  0 in u.requests && u.requests[0].methodId == Some(Int(2)) && u.owing == multiset{0, 0}
  {
    InitialConserved(FRESH_SERVER.methods);
    TwoCallsQueued();
    hide Process, Conserved;
  }

  const STARTS := [Arrive(Arr(TWO_CALLS), 0), Fire(0), Fire(0)]

  lemma StartEntries(id: Int32)
    requires id == 1 || id == 2
    ensures Conserved(FRESH_SERVER) && Enabled(FRESH_SERVER, STARTS[0])
    ensures Entry(FRESH_SERVER, STARTS[0], Int(id)) == Ledger(1, 0, 0, 0)
    ensures var t := After(FRESH_SERVER, STARTS[0]);
            && Enabled(t, Fire(0)) && Entry(t, Fire(0), Int(id)) == Ledger(0, 0, if id == 1 then 1 else 0, 0)
            && var u := After(t, Fire(0));
               Enabled(u, Fire(0)) && Entry(u, Fire(0), Int(id)) == Ledger(0, 0, if id == 2 then 1 else 0, 0)
  {
    BothUnderWay();
    TwoCallsTake(id);
    hide Conserved, TakenForAll, RefusedForAll, After, TWO_CALLS, FRESH_SERVER;
  }

  lemma FollowThree(s: Server, a: Action, b: Action, c: Action, id: Json)
    requires Conserved(s) && Enabled(s, a) && Enabled(After(s, a), b) && Enabled(After(After(s, a), b), c)
    ensures var t := After(s, a); var u := After(t, b);
            && Follow(s, [a, b, c]) == Some(After(u, c))
            && Books(s, [a, b, c], id) == Entry(s, a, id).Plus(Entry(t, b, id)).Plus(Entry(u, c, id))
  {
    assert [] + [a] == [a] && [a] + [b] == [a, b] && [a, b] + [c] == [a, b, c];
    assert Follow(s, []) == Some(s) && Books(s, [], id) == Ledger(0, 0, 0, 0);
    hide Conserved, After, Entry, Enabled, Follow, Books;
    FollowOne(s, [], a, id);
    FollowOne(s, [a], b, id);
    FollowOne(s, [a, b], c, id);
  }

  /** The run of `LateReturnExample` up to its returns. */
  lemma Starts(id: Int32)
    requires id == 1 || id == 2
    ensures Conserved(FRESH_SERVER) && Follow(FRESH_SERVER, STARTS).Some?
    ensures var u := Follow(FRESH_SERVER, STARTS).value;
            0 in u.requests && u.requests[0].methodId == Some(Int(2)) && u.owing == multiset{0, 0}
    ensures Books(FRESH_SERVER, STARTS, Int(id)) == Ledger(1, 0, 1, 0)
  {
    assert STARTS == [STARTS[0], Fire(0), Fire(0)] && STARTS[0] == Arrive(Arr(TWO_CALLS), 0);
    hide *;
    StartEntries(id);
    BothUnderWay();
    FollowThree(FRESH_SERVER, STARTS[0], Fire(0), Fire(0), Int(id));
  }

  /**
   It fails for late returns: in the run of `LateReturnExample` the reference taken to id 1 is never used up, and two
   replies use up the one reference taken to id 2.
   */
  lemma LateReturnsLeak(x: Option<Json>, y: Option<Json>)
    ensures var acts := [Arrive(Arr(TWO_CALLS), 0), Fire(0), Fire(0), Reply(0, x), Reply(0, y)];
            && Conserved(FRESH_SERVER) && Follow(FRESH_SERVER, acts).Some?
            && Books(FRESH_SERVER, acts, Int(1)) == Ledger(1, 0, 1, 0)
            && Books(FRESH_SERVER, acts, Int(2)) == Ledger(1, 0, 1, 2)
  {
    assert STARTS + [Reply(0, x)] + [Reply(0, y)]
        == [Arrive(Arr(TWO_CALLS), 0), Fire(0), Fire(0), Reply(0, x), Reply(0, y)];
    hide *;
    Starts(1);
    Starts(2);
    TwoReplies(FRESH_SERVER, STARTS, 0, x, y, Int(1));
    TwoReplies(FRESH_SERVER, STARTS, 0, x, y, Int(2));
    TheOther();
  }

  lemma TheOther()
    ensures One(Some(Int(2)), Int(1)) == 0 && One(Some(Int(2)), Int(2)) == 1
  {
  }

  lemma ReplyEntry(s: Server, r: nat, x: Option<Json>, id: Json)
    requires Conserved(s) && r in s.owing
    ensures r in s.requests && After(s, Reply(r, x)).requests == s.requests
    ensures After(s, Reply(r, x)).owing == s.owing - multiset{r}
    ensures Entry(s, Reply(r, x), id) == Ledger(0, 0, 0, One(s.requests[r].methodId, id))
  {
    AllLive(s);
    hide Conserved, MakeReply;
  }

  /** A handler returns. */
  lemma OneReply(s: Server, acts: seq<Action>, r: nat, x: Option<Json>, id: Json)
    requires Conserved(s) && Follow(s, acts).Some? && r in Follow(s, acts).value.owing
    ensures var t, all := Follow(s, acts).value, acts + [Reply(r, x)];
            && r in t.requests && Follow(s, all).Some?
            && Follow(s, all).value.requests == t.requests
            && Follow(s, all).value.owing == t.owing - multiset{r}
            && Books(s, all, id) == Books(s, acts, id).Plus(Ledger(0, 0, 0, One(t.requests[r].methodId, id)))
  {
    assert Enabled(Follow(s, acts).value, Reply(r, x));
    hide *;
    ReplyEntry(Follow(s, acts).value, r, x, id);
    FollowOne(s, acts, Reply(r, x), id);
  }

  lemma TwoReplies(s: Server, acts: seq<Action>, r: nat, x: Option<Json>, y: Option<Json>, id: Json)
    requires Conserved(s) && Follow(s, acts).Some? && Follow(s, acts).value.owing == multiset{r, r}
    ensures var t, all := Follow(s, acts).value, acts + [Reply(r, x)] + [Reply(r, y)];
            && r in t.requests && Follow(s, all).Some?
            && var one := One(t.requests[r].methodId, id);
               Books(s, all, id) == Books(s, acts, id).Plus(Ledger(0, 0, 0, one)).Plus(Ledger(0, 0, 0, one))
  {
    assert r in multiset{r, r} && r in multiset{r, r} - multiset{r};
    hide *;
    OneReply(s, acts, r, x, id);
    OneReply(s, acts + [Reply(r, x)], r, y, id);
  }
}
