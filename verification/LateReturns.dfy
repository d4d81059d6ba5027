/**
 Handlers that keep their request and return later, outside their own callback. All calls of a batch share one
 `method_id`, so the reply goes out under whatever id the last event of the record has left there.
 */
module LateReturns {
  import opened Values
  import opened Messages
  import opened Protocol
  import opened Schedules

  function After(s: Server, a: Action): (t: Server)
    requires Conserved(s) && Enabled(s, a)
    ensures Conserved(t)
  {
    NextConserved(s, a);
    Next(s, a)
  }

  /** Any sequence of messages, callbacks and returns, from left to right; None when one of them is not possible. */
  function Follow(s: Server, acts: seq<Action>): (r: Option<Server>)
    requires Conserved(s)
    ensures r.Some? ==> Conserved(r.value)
  {
    if acts == [] then Some(s)
    else
      var a := acts[|acts| - 1];
      match Follow(s, acts[..|acts| - 1])
      case None => None
      case Some(t) => if Enabled(t, a) then Some(After(t, a)) else None
  }

  /** The id remembered with the last event of r that has fired; None when none has. */
  function LastFired(s: Server, acts: seq<Action>, r: nat): Option<Option<Json>>
    requires Conserved(s) && Follow(s, acts).Some?
  {
    if acts == [] then None
    else
      var init, a := acts[..|acts| - 1], acts[|acts| - 1];
      var t := Follow(s, init).value;
      if a.Fire? && Target(t.queue[a.k]) == Some(r) then Some(t.queue[a.k].savedId) else LastFired(s, init, r)
  }

  lemma NextGrows(s: Server, a: Action)
    requires Conserved(s) && Enabled(s, a)
    ensures s.next <= Next(s, a).next
  {
    AllLive(s);
    match a
    case Arrive(obj, arg) =>
      if obj.Obj? { DispatchFacts(Create(s, false, arg), s.next, obj); }
      else if obj.Arr? && obj.elems != [] { DispatchAllFacts(Create(s, true, arg), s.next, obj.elems); }
    case _ =>
  }

  /** What one action does to the id in a record that is there before and after. */
  lemma IdStep(s: Server, a: Action, r: nat)
    requires Conserved(s) && Enabled(s, a) && r in s.requests && r in Next(s, a).requests
    ensures Next(s, a).requests[r].methodId ==
            if a.Fire? && Target(s.queue[a.k]) == Some(r) then s.queue[a.k].savedId else s.requests[r].methodId
    ensures Next(s, a).requests[r].batch == s.requests[r].batch
  {
    AllLive(s);
    assert Balanced(s, r);
    hide Conserved, Process, RunEvent, MakeReply;
    match a
    case Arrive(obj, arg) => ArriveId(s, obj, arg, r);
    case Fire(k) => FireId(s, k, r);
    case _ =>
  }

  lemma ArriveId(s: Server, obj: Json, arg: nat, r: nat)
    requires r in s.requests && r < s.next
    ensures r in Process(s, obj, arg).requests && Process(s, obj, arg).requests[r] == s.requests[r]
  {
    hide Dispatch, DispatchAll;
    if obj.Obj? { DispatchFacts(Create(s, false, arg), s.next, obj); }
    else if obj.Arr? && obj.elems != [] { DispatchAllFacts(Create(s, true, arg), s.next, obj.elems); }
  }

  lemma FireId(s: Server, k: nat, r: nat)
    requires k < |s.queue| && Live(s, s.queue[k]) && r in s.requests && r in RunEvent(s, k).requests
    ensures var q := RunEvent(s, k).requests[r];
            && q.methodId == (if Target(s.queue[k]) == Some(r) then s.queue[k].savedId else s.requests[r].methodId)
            && q.batch == s.requests[r].batch
  {
  }

  /** A record that is there at the end of a run has been there all along. */
  lemma {:induction false} ThereAllAlong(s: Server, acts: seq<Action>, a: Action, r: nat)
    requires Conserved(s) && Follow(s, acts).Some? && r < s.next
    requires var t := Follow(s, acts).value; Enabled(t, a) && r in Next(t, a).requests
    ensures r in Follow(s, acts).value.requests
  {
    NextsGrow(s, acts);
    if r !in Follow(s, acts).value.requests { StaysSilent(Follow(s, acts).value, a, r); }
  }

  lemma {:induction false} NextsGrow(s: Server, acts: seq<Action>)
    requires Conserved(s) && Follow(s, acts).Some?
    ensures s.next <= Follow(s, acts).value.next
  {
    if acts != [] {
      NextsGrow(s, acts[..|acts| - 1]);
      NextGrows(Follow(s, acts[..|acts| - 1]).value, acts[|acts| - 1]);
    }
  }

  /** The shared id: what the last event of the record left there, whatever happened to others meanwhile. */
  lemma {:induction false} CurrentId(s: Server, acts: seq<Action>, r: nat)
    requires Conserved(s) && Follow(s, acts).Some? && r in s.requests && r in Follow(s, acts).value.requests
    ensures Follow(s, acts).value.requests[r].methodId ==
            var fired := LastFired(s, acts, r); if fired == None then s.requests[r].methodId else fired.value
    ensures Follow(s, acts).value.requests[r].batch == s.requests[r].batch
  {
    hide Conserved, Next, Enabled;
    if acts != [] {
      var init, a := acts[..|acts| - 1], acts[|acts| - 1];
      assert r < s.next by { RecordNumber(s, r); }
      ThereAllAlong(s, init, a, r);
      CurrentId(s, init, r);
      IdStep(Follow(s, init).value, a, r);
    }
  }

  lemma RecordNumber(s: Server, r: nat)
    requires Conserved(s) && r in s.requests
    ensures r < s.next
  {
    assert Balanced(s, r);
  }

  lemma OtherIdOtherReply(id: Option<Json>, a: Json, res: Option<Json>)
    ensures MakeReply(id, res) == MakeReply(Some(a), res) <==> id == Some(a)
  {
    ReplyContents(id, res);
    ReplyContents(Some(a), res);
    hide MakeReply;
  }

  /**
   Which late returns are right. A handler is started for a call with id a; anything at all happens; then a handler
   of that record returns. Its reply is the right one for that call if and only if no event of the record has fired
   in between, or the last one that has was remembered with the same id.
   */
  lemma LateReturnExact(s: Server, k: nat, a: Json, acts: seq<Action>, res: Option<Json>)
    requires Conserved(s) && k < |s.queue| && s.queue[k].Invoke? && s.queue[k].req.Some?
            && s.queue[k].savedId == Some(a)
    requires Follow(After(s, Fire(k)), acts).Some?
    requires s.queue[k].req.value in Follow(After(s, Fire(k)), acts).value.owing
    ensures var r := s.queue[k].req.value; var started := After(s, Fire(k)); var t := Follow(started, acts).value;
            var reply := MakeReply(Some(a), res); var fired := LastFired(started, acts, r);
            && r in t.requests
            && (Return(t, r, res).queue == t.queue + [Result(r, reply, Some(a))]
                <==> fired == None || fired == Some(Some(a)))
  {
    var r, started := s.queue[k].req.value, Next(s, Fire(k));
    var t := Follow(started, acts).value;
    Started(s, k);
    AllLive(t);
    CurrentId(started, acts, r);
    OtherIdOtherReply(t.requests[r].methodId, a, res);
    hide Conserved, Next, Follow, LastFired, MakeReply;
    var f := Result(r, MakeReply(t.requests[r].methodId, res), t.requests[r].methodId);
    assert Return(t, r, res).queue == t.queue + [f];
    assert (t.queue + [f])[|t.queue|] == f;
    assert (t.queue + [Result(r, MakeReply(Some(a), res), Some(a))])[|t.queue|]
        == Result(r, MakeReply(Some(a), res), Some(a));
  }

  lemma Started(s: Server, k: nat)
    requires Conserved(s) && k < |s.queue| && s.queue[k].Invoke? && s.queue[k].req.Some?
    ensures var r := s.queue[k].req.value; var t := After(s, Fire(k));
            && r in s.requests && t.requests == s.requests[r := s.requests[r].(methodId := s.queue[k].savedId)]
            && t.owing == s.owing + multiset{r} && t.queue == s.queue[..k] + s.queue[k + 1..]
  {
    AllLive(s);
  }

  // ----- a call of its own -----

  /** No handler of r is waiting for its turn. */
  ghost predicate NoCallQueued(q: seq<Event>, r: nat) {
    forall e | e in q :: e.Invoke? ==> e.req != Some(r)
  }

  lemma DispatchAdds(s: Server, r: nat, call: Json)
    requires r in s.requests
    ensures forall e | e in Dispatch(s, r, call).queue :: e in s.queue || Target(e) == None || Target(e) == Some(r)
  {
    hide InvalidReply, NotFoundReply, FindMethod, MethodName, IsCall, Get;
  }

  lemma {:induction false} DispatchAllAdds(s: Server, r: nat, calls: seq<Json>)
    requires r in s.requests
    ensures forall e | e in DispatchAll(s, r, calls).queue :: e in s.queue || Target(e) == None || Target(e) == Some(r)
  {
    hide Dispatch;
    if calls != [] {
      DispatchAllAdds(s, r, calls[..|calls| - 1]);
      DispatchAdds(DispatchAll(s, r, calls[..|calls| - 1]), r, calls[|calls| - 1]);
    }
  }

  lemma NoCallStep(s: Server, a: Action, r: nat)
    requires Conserved(s) && Enabled(s, a) && r < s.next && NoCallQueued(s.queue, r)
    ensures NoCallQueued(Next(s, a).queue, r)
  {
    AllLive(s);
    match a
    case Arrive(obj, arg) =>
      if obj.Obj? {
        DispatchAdds(Create(s, false, arg), s.next, obj);
        hide Dispatch;
      } else if obj.Arr? && obj.elems != [] {
        DispatchAllAdds(Create(s, true, arg), s.next, obj.elems);
        hide DispatchAll;
      }
    case Fire(k) => InQueue(s.queue, k);
    case Reply(_, _) =>
  }

  /**
   With no handler waiting and one under way, nothing of a record that is no batch can fire before that one
   returns.
   */
  lemma {:induction false} NothingFires(s: Server, acts: seq<Action>, r: nat)
    requires Conserved(s) && Follow(s, acts).Some? && r in s.requests && !s.requests[r].batch
            && NoCallQueued(s.queue, r)
    ensures NoCallQueued(Follow(s, acts).value.queue, r)
    ensures r in Follow(s, acts).value.owing ==> LastFired(s, acts, r) == None
  {
    if acts != [] {
      var init, a := acts[..|acts| - 1], acts[|acts| - 1];
      var t, u := Follow(s, init).value, Follow(s, acts).value;
      NothingFires(s, init, r);
      RecordNumber(s, r);
      NextsGrow(s, init);
      NoCallStep(t, a, r);
      if r in u.owing {
        AllLive(u);
        ThereAllAlong(s, init, a, r);
        CurrentId(s, init, r);
        StillOwing(t, a, r);
      }
    }
  }

  lemma StillOwing(s: Server, a: Action, r: nat)
    requires Conserved(s) && Enabled(s, a) && r in s.requests && !s.requests[r].batch && NoCallQueued(s.queue, r)
    requires r in Next(s, a).owing
    ensures r in s.owing && !(a.Fire? && Target(s.queue[a.k]) == Some(r))
  {
    AllLive(s);
    NextConserved(s, a);
    AllLive(Next(s, a));
    assert Balanced(s, r);
    match a
    case Arrive(obj, arg) =>
      if obj.Obj? { DispatchFacts(Create(s, false, arg), s.next, obj); }
      else if obj.Arr? && obj.elems != [] { DispatchAllFacts(Create(s, true, arg), s.next, obj.elems); }
    case Fire(k) => assert s.queue[k] in s.queue;
    case Reply(_, _) =>
  }

  /** A call that is not part of a batch may be returned as late as its handler likes. */
  lemma LoneCallMayBeLate(s: Server, k: nat, a: Json, acts: seq<Action>, res: Option<Json>)
    requires Conserved(s) && k < |s.queue| && s.queue[k].Invoke? && s.queue[k].req.Some?
            && s.queue[k].savedId == Some(a)
    requires var r := s.queue[k].req.value; r in s.requests ==> !s.requests[r].batch
    requires Follow(After(s, Fire(k)), acts).Some?
    requires s.queue[k].req.value in Follow(After(s, Fire(k)), acts).value.owing
    ensures var r := s.queue[k].req.value; var t := Follow(After(s, Fire(k)), acts).value;
            r in t.requests && Return(t, r, res).queue == t.queue + [Result(r, MakeReply(Some(a), res), Some(a))]
  {
    var r, started := s.queue[k].req.value, Next(s, Fire(k));
    Started(s, k);
    assert Balanced(started, r);
    forall e | e in started.queue ensures e.Invoke? ==> e.req != Some(r) {
      var i :| 0 <= i < |started.queue| && started.queue[i] == e;
      if Target(e) == Some(r) { QueuedMember(started.queue, i, r); }
    }
    NothingFires(started, acts, r);
    LateReturnExact(s, k, a, acts, res);
  }

  // ----- batches -----

  /** Two calls of one batch fire before either returns: both replies go out under the second call's id. */
  lemma LateReturnsShareId(s: Server, r: nat, a: Json, b: Json, x: Option<Json>, y: Option<Json>)
    requires Conserved(s) && |s.queue| >= 2 && r in s.requests && s.owing == multiset{}
    requires s.queue[0].Invoke? && s.queue[0].req == Some(r) && s.queue[0].savedId == Some(a)
    requires s.queue[1].Invoke? && s.queue[1].req == Some(r) && s.queue[1].savedId == Some(b)
    ensures var t := Return(Return(RunEvent(RunEvent(s, 0), 0), r, x), r, y);
            && |t.queue| == |s.queue|
            && t.queue[|t.queue| - 2] == Result(r, MakeReply(Some(b), x), Some(b))
            && t.queue[|t.queue| - 1] == Result(r, MakeReply(Some(b), y), Some(b))
  {
    hide Conserved, MakeReply;
    var s1 := RunEvent(s, 0);
    assert s1.queue == s.queue[1..];
    var s2 := RunEvent(s1, 0);
    assert s2.queue == s.queue[2..];
  }

  /** A late return after an invalid element's result has fired finds no id at all: its reply is lost. */
  lemma LateReturnLost(s: Server, r: nat, a: Json, x: Option<Json>)
    requires Conserved(s) && |s.queue| >= 2 && r in s.requests && s.owing == multiset{}
    requires s.queue[0] == Result(r, InvalidReply(), None)
    requires s.queue[1].Invoke? && s.queue[1].req == Some(r) && s.queue[1].savedId == Some(a)
    requires s.requests[r].batch && s.requests[r].resultCount + 1 != s.requests[r].waiting
    ensures var t := Return(RunEvent(RunEvent(s, 1), 0), r, x);
            t.queue[|t.queue| - 1] == Result(r, None, None)
  {
    var s1 := RunEvent(s, 1);
    assert s1.queue[0] == s.queue[0];
    var s2 := RunEvent(s1, 0);
    assert s2.requests[r].methodId == None;
    ReplyContents(None, x);
  }

  function MakeCall(name: string, id: Json): Json {
    Obj([Member("jsonrpc", Str(VERSION)), Member("method", Str(name)), Member("id", id)])
  }

  lemma CallGets(name: string, id: Json)
    requires SimpleId(id)
    ensures var c := MakeCall(name, id);
            CallTypeOf(c) == RequestCall && Get(c, "id") == Some(id) && Get(c, "params") == None
                && MethodName(c) == name
  {
    var ms := MakeCall(name, id).members;
    assert ms[0].key == "jsonrpc" && ms[1].key == "method" && ms[2].key == "id";
    assert "jsonrpc"[0] == 'j' && "method"[0] == 'm' && "id"[0] == 'i' && "params"[0] == 'p';
    LookupFindsEntries(ms, "jsonrpc", Str(VERSION));
    LookupFindsEntries(ms, "method", Str(name));
    LookupFindsEntries(ms, "id", id);
    if Lookup(ms, "params").Some? {
      LookupFindsEntries(ms, "params", Lookup(ms, "params").value);
    }
  }

  const TWO_CALLS := [MakeCall("m", Int(1)), MakeCall("m", Int(2))]
  const FRESH_SERVER := Server([Method("m", 0)], map[], 0, [], multiset{}, [])

  function CallEvent(id: Int32): Event { Invoke(0, Some(0), None, Some(Int(id))) }

  lemma OneCall(s: Server, id: Int32)
    requires 0 in s.requests && s.methods == FRESH_SERVER.methods
    ensures var t := Dispatch(s, 0, MakeCall("m", Int(id)));
            t.queue == s.queue + [CallEvent(id)] && t.methods == s.methods && Expected(MakeCall("m", Int(id))) == 1
  {
    CallGets("m", Int(id));
    assert FindMethod(s.methods, "m") == Some(0);
    hide CallTypeOf, MakeCall, Get, FindMethod, MethodName;
  }

  /** The batch of two calls is queued as two calls of one record. */
  lemma TwoCallsQueued()
    ensures var t := Process(FRESH_SERVER, Arr(TWO_CALLS), 0);
            t.queue == [CallEvent(1), CallEvent(2)] && 0 in t.requests && t.owing == multiset{} && Conserved(t)
  {
    InitialConserved(FRESH_SERVER.methods);
    ArriveConserved(FRESH_SERVER, Arr(TWO_CALLS), 0);
    var c := Create(FRESH_SERVER, true, 0);
    var c1, c2 := MakeCall("m", Int(1)), MakeCall("m", Int(2));
    assert TWO_CALLS == [c1, c2];
    hide Dispatch, MakeCall, Expected, Conserved, CallEvent;
    assert [c1, c2][..1] == [c1] && [c1][..0] == [];
    assert DispatchAll(c, 0, []) == c && ExpectedAll([]) == 0;
    OneCall(c, 1);
    DispatchAllFacts(c, 0, [c1]);
    var d := DispatchAll(c, 0, [c1]);
    assert d.queue == [CallEvent(1)];
    OneCall(d, 2);
    DispatchAllFacts(c, 0, [c1, c2]);
    assert ExpectedAll([c1]) == 1 && ExpectedAll([c1, c2]) == 2;
    assert DispatchAll(c, 0, [c1, c2]).queue == [CallEvent(1)] + [CallEvent(2)];
  }

  /** Both handlers of the two calls are started before either returns. */
  function BothStarted(s: Server): Server
    requires Conserved(s) && |s.queue| >= 2 && Live(s, s.queue[0]) && s.queue[0].Invoke? && Live(s, s.queue[1])
  {
    RunEvent(RunEvent(s, 0), 0)
  }

  /**
   So the condition is needed. A batch of two calls with ids 1 and 2 for the same method: both handlers are started,
   then both return, and the two replies on their way both carry id 2.
   */
  lemma LateReturnExample(x: Option<Json>, y: Option<Json>)
    ensures var s := Process(FRESH_SERVER, Arr(TWO_CALLS), 0); var two := Some(Int(2));
            && Conserved(s) && s.queue == [CallEvent(1), CallEvent(2)] && 0 in s.requests
            && 0 in BothStarted(s).requests && BothStarted(s).owing == multiset{0, 0}
            && Return(Return(BothStarted(s), 0, x), 0, y).queue
               == [Result(0, MakeReply(two, x), two), Result(0, MakeReply(two, y), two)]
  {
    TwoCallsQueued();
    hide Process, MakeReply, Conserved;
    var s := Process(FRESH_SERVER, Arr(TWO_CALLS), 0);
    LateReturnsShareId(s, 0, Int(1), Int(2), x, y);
  }
}
