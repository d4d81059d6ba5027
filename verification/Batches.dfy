/** In which order a batch is answered: as the results come back, whatever the order of its calls. */
module Batches {
  import opened Values
  import opened Messages
  import opened Protocol
  import opened LateReturns

  /** The reply that an action files for r, if any: that of a result of r that fires. */
  function FiledBy(s: Server, a: Action, r: nat): seq<Json>
    requires Enabled(s, a)
  {
    if a.Fire? && s.queue[a.k].Result? && s.queue[a.k].target == r && s.queue[a.k].res.Some?
    then [s.queue[a.k].res.value] else []
  }

  /** The replies of the results of r that fire in a run, in the order in which they do. */
  function Filed(s: Server, acts: seq<Action>, r: nat): seq<Json>
    requires Conserved(s) && Follow(s, acts).Some?
  {
    if acts == [] then []
    else
      var init := acts[..|acts| - 1];
      Filed(s, init, r) + FiledBy(Follow(s, init).value, acts[|acts| - 1], r)
  }

  /** r is still waiting with these replies in its batch, or its caller was given them. */
  ghost predicate Holds(s: Server, r: nat, arg: nat, replies: seq<Json>) {
    && r < s.next
    && if r in s.requests then s.requests[r].batch && s.requests[r].arg == arg && s.requests[r].results == replies
       else Delivery(Some(r), arg, Some(Arr(replies))) in s.deliveries
  }

  lemma FireHolds(s: Server, k: nat, r: nat, arg: nat, replies: seq<Json>)
    requires Conserved(s) && k < |s.queue| && Live(s, s.queue[k]) && Holds(s, r, arg, replies)
    ensures Holds(RunEvent(s, k), r, arg, replies + FiledBy(s, Fire(k), r))
  {
    AllLive(s);
    hide Conserved;
    assert replies + [] == replies;
    var e := s.queue[k];
    if e.Result? && e.target == r && e.res.Some? {
      assert s.requests[r].results + [e.res.value] == replies + [e.res.value];
    }
  }

  lemma ArriveHolds(s: Server, obj: Json, arg': nat, r: nat, arg: nat, replies: seq<Json>)
    requires Conserved(s) && Holds(s, r, arg, replies)
    ensures Holds(Process(s, obj, arg'), r, arg, replies)
  {
    hide Conserved, Dispatch, DispatchAll;
    if obj.Obj? { DispatchFacts(Create(s, false, arg'), s.next, obj); }
    else if obj.Arr? && obj.elems != [] { DispatchAllFacts(Create(s, true, arg'), s.next, obj.elems); }
  }

  lemma StepHolds(s: Server, a: Action, r: nat, arg: nat, replies: seq<Json>)
    requires Conserved(s) && Enabled(s, a) && Holds(s, r, arg, replies)
    ensures Holds(Next(s, a), r, arg, replies + FiledBy(s, a, r))
  {
    AllLive(s);
    assert replies + [] == replies;
    hide Holds, Conserved, Process, RunEvent;
    match a
    case Arrive(obj, arg') => ArriveHolds(s, obj, arg', r, arg, replies);
    case Fire(k) => FireHolds(s, k, r, arg, replies);
    case Reply(x, res) => ReplyHolds(s, x, res, r, arg, replies);
  }

  lemma ReplyHolds(s: Server, x: nat, res: Option<Json>, r: nat, arg: nat, replies: seq<Json>)
    requires x in s.requests && Holds(s, r, arg, replies)
    ensures Holds(Return(s, x, res), r, arg, replies)
  {
    hide MakeReply;
  }

  /**
   Over any messages, callbacks and returns, late ones too: a batch holds the replies of the results that have fired
   for it, in the order in which they did, and these are what `user_cb` is given in the end.
   */
  lemma {:induction false} BatchInOrder(s: Server, acts: seq<Action>, r: nat, arg: nat, replies: seq<Json>)
    requires Conserved(s) && Follow(s, acts).Some? && Holds(s, r, arg, replies)
    ensures Holds(Follow(s, acts).value, r, arg, replies + Filed(s, acts, r))
  {
    hide Conserved, Holds, Next, Enabled;
    if acts == [] {
      assert replies + [] == replies;
    } else {
      var init, a := acts[..|acts| - 1], acts[|acts| - 1];
      var t := Follow(s, init).value;
      BatchInOrder(s, init, r, arg, replies);
      StepHolds(t, a, r, arg, replies + Filed(s, init, r));
      assert replies + Filed(s, init, r) + FiledBy(t, a, r) == replies + (Filed(s, init, r) + FiledBy(t, a, r));
    }
  }

  /** A batch starts with no replies. */
  lemma BatchStarts(s: Server, calls: seq<Json>, arg: nat)
    requires ExpectedAll(calls) > 0
    ensures Holds(Process(s, Arr(calls), arg), s.next, arg, [])
  {
    DispatchAllFacts(Create(s, true, arg), s.next, calls);
    hide DispatchAll;
  }
}
