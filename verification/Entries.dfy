/**
 Messages entry by entry: which objects are calls and responses, what the replies hold, and what the server does with
 them, in terms of the entries alone.
 */
module Entries {
  import opened Values
  import opened Messages
  import opened Protocol

  /** A key is found exactly when there is an entry with it. */
  lemma EntryUnder(ms: seq<Member>, key: string)
    requires DistinctKeys(ms)
    ensures Lookup(ms, key) == None <==> forall m | m in ms :: m.key != key
    ensures forall v :: Lookup(ms, key) == Some(v) <==> Member(key, v) in ms
    ensures forall m | m in ms && m.key == key :: Lookup(ms, key) == Some(m.value)
  {
    forall v ensures Lookup(ms, key) == Some(v) <==> Member(key, v) in ms { LookupFindsEntries(ms, key, v); }
    forall m | m in ms && m.key == key ensures Lookup(ms, key) == Some(m.value) {
      assert m == Member(key, m.value);
    }
  }

  // ----- calls -----

  /**
   Which objects are calls: those with the version, a name for the method, params that are an array or an object, if
   any, and an id that is a string or an int, if any. Without an id it is a notification.
   */
  lemma CallExactly(ms: seq<Member>)
    requires DistinctKeys(ms)
    ensures CallTypeOf(Obj(ms)) != InvalidCall <==>
              && Member("jsonrpc", Str("2.0")) in ms
              && (exists m :: m in ms && m.key == "method" && m.value.Str?)
              && (forall m | m in ms && m.key == "params" :: m.value.Arr? || m.value.Obj?)
              && (forall m | m in ms && m.key == "id" :: m.value.Str? || m.value.Int?)
    ensures CallTypeOf(Obj(ms)) == NotificationCall ==> forall m | m in ms :: m.key != "id"
    ensures CallTypeOf(Obj(ms)) == RequestCall ==> exists m :: m in ms && m.key == "id"
  {
    EntryUnder(ms, "jsonrpc");
    EntryUnder(ms, "method");
    EntryUnder(ms, "params");
    EntryUnder(ms, "id");
    hide Lookup, DistinctKeys;
  }

  lemma OnlyObjectsCall(v: Json)
    requires !v.Obj?
    ensures CallTypeOf(v) == InvalidCall
  {
  }

  function Optional(key: string, v: Option<Json>): seq<Member> {
    if v.Some? then [Member(key, v.value)] else []
  }

  /** A message with these entries and no others. */
  function MessageOf(version: Option<Json>, name: Option<Json>, params: Option<Json>, id: Option<Json>): seq<Member> {
    Optional("jsonrpc", version) + Optional("method", name) + Optional("params", params) + Optional("id", id)
  }

  lemma MessageEntries(version: Option<Json>, name: Option<Json>, params: Option<Json>, id: Option<Json>)
    ensures var ms := MessageOf(version, name, params, id);
            && DistinctKeys(ms)
            && Get(Obj(ms), "jsonrpc") == version && Get(Obj(ms), "method") == name
            && Get(Obj(ms), "params") == params && Get(Obj(ms), "id") == id
  {
    KeysDiffer();
    var a, b, c := Optional("jsonrpc", version), Optional("method", name), Optional("params", params);
    var d := Optional("id", id);
    assert MessageOf(version, name, params, id) == a + b + c + d && [] + a == a;
    assert forall key :: Lookup([], key) == None;
    assert forall key :: Get(Obj(a + b + c + d), key) == Lookup(a + b + c + d, key);
    hide *;
    Appended([], "jsonrpc", version);
    Appended([], "method", None);
    Kept(a, "method", name, "jsonrpc");
    Kept([], "jsonrpc", version, "method");
    Kept([], "jsonrpc", version, "params");
    Kept([], "jsonrpc", version, "id");
    Appended(a, "method", name);
    Kept(a, "method", name, "params");
    Kept(a, "method", name, "id");
    Appended(a + b, "params", params);
    Kept(a + b, "params", params, "jsonrpc");
    Kept(a + b, "params", params, "method");
    Kept(a + b, "params", params, "id");
    Appended(a + b + c, "id", id);
    Kept(a + b + c, "id", id, "jsonrpc");
    Kept(a + b + c, "id", id, "method");
    Kept(a + b + c, "id", id, "params");
  }

  lemma KeysDiffer()
    ensures "jsonrpc" != "method" && "jsonrpc" != "params" && "jsonrpc" != "id"
    ensures "method" != "params" && "method" != "id" && "params" != "id"
    ensures "result" != "jsonrpc" && "result" != "id" && "error" != "jsonrpc" && "error" != "id" && "code" != "message"
  {
    assert "jsonrpc"[0] == 'j' && "method"[0] == 'm' && "params"[0] == 'p' && "id"[0] == 'i';
    assert "result"[0] == 'r' && "error"[0] == 'e' && "code"[0] == 'c';
  }

  lemma Appended(ms: seq<Member>, key: string, v: Option<Json>)
    requires DistinctKeys(ms) && Lookup(ms, key) == None
    ensures DistinctKeys(ms + Optional(key, v)) && Lookup(ms + Optional(key, v), key) == v
  {
    var all := ms + Optional(key, v);
    EntryUnder(ms, key);
    if v == None {
      assert all == ms;
    } else {
      assert all[|ms|] == Member(key, v.value) && forall i :: 0 <= i < |ms| ==> all[i] == ms[i];
      assert forall i :: 0 <= i < |ms| ==> ms[i] in ms;
      EntryUnder(all, key);
    }
  }

  lemma Kept(ms: seq<Member>, key: string, v: Option<Json>, other: string)
    requires DistinctKeys(ms) && Lookup(ms, key) == None && other != key
    ensures Lookup(ms + Optional(key, v), other) == Lookup(ms, other)
  {
    Appended(ms, key, v);
    var all := ms + Optional(key, v);
    if v == None {
      assert all == ms;
    } else {
      assert all == ms + [Member(key, v.value)];
      EntryUnder(all, other);
      EntryUnder(ms, other);
    }
  }

  /** A message of these entries alone: which kind of call it is. */
  lemma BuiltCall(version: Option<Json>, name: Option<Json>, params: Option<Json>, id: Option<Json>)
    ensures CallTypeOf(Obj(MessageOf(version, name, params, id))) ==
            if version != Some(Str("2.0")) || name == None || !name.value.Str? then InvalidCall
            else if params.Some? && !params.value.Arr? && !params.value.Obj? then InvalidCall
            else if id == None then NotificationCall
            else if id.value.Str? || id.value.Int? then RequestCall
            else InvalidCall
  {
    MessageEntries(version, name, params, id);
    hide MessageOf, Get;
  }

  // ----- responses -----

  /**
   Which objects are responses: those with the version, an id that is no array, object or double, if any, and a result,
   or else an error object with a string for its message and an int for its code.
   */
  lemma ResponseExactly(ms: seq<Member>)
    requires Keyed(Obj(ms))
    ensures IsResponse(Obj(ms)) <==>
              && Member("jsonrpc", Str("2.0")) in ms
              && (forall m | m in ms && m.key == "id" :: !m.value.Arr? && !m.value.Obj? && !m.value.Double?)
              && ((exists m :: m in ms && m.key == "result")
                  || exists m :: m in ms && m.key == "error" && m.value.Obj? && Complaint(m.value.members))
  {
    VersionEntry(ms);
    IdEntry(ms);
    ErrorEntry(ms);
    hide Lookup, Keyed, IsError, Complaint, HasVersion, Get;
  }

  lemma VersionEntry(ms: seq<Member>)
    requires DistinctKeys(ms)
    ensures HasVersion(Obj(ms)) <==> Member("jsonrpc", Str("2.0")) in ms
    ensures Get(Obj(ms), "result").Some? <==> exists m :: m in ms && m.key == "result"
  {
    EntryUnder(ms, "jsonrpc");
    EntryUnder(ms, "result");
    hide Lookup, DistinctKeys;
  }

  lemma IdEntry(ms: seq<Member>)
    requires DistinctKeys(ms)
    ensures var id := Get(Obj(ms), "id");
            (id.Some? ==> id.value.Str? || id.value.Int? || id.value.Bool? || id.value.Null?)
            <==> forall m | m in ms && m.key == "id" :: !m.value.Arr? && !m.value.Obj? && !m.value.Double?
  {
    EntryUnder(ms, "id");
    hide Lookup, DistinctKeys;
  }

  lemma ErrorEntry(ms: seq<Member>)
    requires Keyed(Obj(ms))
    ensures Get(Obj(ms), "error").Some? && IsError(Get(Obj(ms), "error").value)
            <==> exists m :: m in ms && m.key == "error" && m.value.Obj? && Complaint(m.value.members)
  {
    EntryUnder(ms, "error");
    if Get(Obj(ms), "error").Some? {
      var e := Get(Obj(ms), "error").value;
      assert Member("error", e) in ms && Keyed(e);
      if e.Obj? { ErrorExactly(e.members); }
    }
    hide Lookup, Keyed, Complaint;
  }

  /** The entries of an error object: a string for the message, an int for the code. */
  ghost predicate Complaint(es: seq<Member>) {
    && (exists e :: e in es && e.key == "message" && e.value.Str?)
    && (exists e :: e in es && e.key == "code" && e.value.Int?)
  }

  lemma ErrorExactly(es: seq<Member>)
    requires DistinctKeys(es)
    ensures IsError(Obj(es)) <==> Complaint(es)
  {
    EntryUnder(es, "message");
    EntryUnder(es, "code");
    hide Lookup, DistinctKeys;
  }

  /** Everything else: an array is a response when all its elements are such objects, other values never are. */
  lemma ResponseBatch(v: Json)
    requires !v.Obj?
    ensures IsResponse(v) <==> v.Arr? && forall e | e in v.elems :: e.Obj? && IsResponse(e)
  {
  }

  // ----- replies -----

  /** The replies, written out; the codes are those of section 5.1 of the JSON-RPC 2.0 Specification. */
  function ErrorReply(message: string, code: Int32, id: Json): Json {
    Obj([Member("jsonrpc", Str("2.0")),
         Member("error", Obj([Member("message", Str(message)), Member("code", Int(code))])),
         Member("id", id)])
  }

  lemma RepliesWritten(id: Json, res: Json)
    ensures MakeReply(Some(id), Some(res))
            == Some(Obj([Member("jsonrpc", Str("2.0")), Member("result", res), Member("id", id)]))
    ensures MakeReply(Some(id), None) == Some(ErrorReply("Internal error", -32603, id))
    ensures MakeReply(None, Some(res)) == MakeReply(None, None) == None
    ensures NotFoundReply(id) == Some(ErrorReply("Method not found", -32601, id))
    ensures InvalidReply() == Some(ErrorReply("Invalid request", -32600, Null))
  {
    ThreeWritten("result", res, id);
    ErrorWritten("Internal error", -32603, id);
    ErrorWritten("Method not found", -32601, id);
    ErrorWritten("Invalid request", -32600, Null);
    hide PrepareError, Put, ErrorReply;
  }

  lemma Fresh(ms: seq<Member>, key: string, v: Json)
    requires forall i :: 0 <= i < |ms| ==> ms[i].key != key
    ensures Put(Some(Obj(ms)), key, Some(v)) == Some(Obj(ms + [Member(key, v)]))
  {
    assert Find(ms, key) == |ms|;
  }

  lemma ThreeWritten(key: string, v: Json, id: Json)
    requires key == "result" || key == "error"
    ensures Put(Put(Put(Some(Obj([])), "jsonrpc", Some(Str(VERSION))), key, Some(v)), "id", Some(id))
            == Some(Obj([Member("jsonrpc", Str("2.0")), Member(key, v), Member("id", id)]))
  {
    KeysDiffer();
    var a, b := [Member("jsonrpc", Str(VERSION))], [Member("jsonrpc", Str(VERSION)), Member(key, v)];
    assert [] + a == a && a + [Member(key, v)] == b;
    assert b + [Member("id", id)] == [Member("jsonrpc", Str("2.0")), Member(key, v), Member("id", id)];
    hide Put;
    Fresh([], "jsonrpc", Str(VERSION));
    Fresh(a, key, v);
    Fresh(b, "id", id);
  }

  lemma ErrorWritten(message: string, code: Int32, id: Json)
    ensures PrepareError(message, code, Some(id)) == Some(ErrorReply(message, code, id))
  {
    KeysDiffer();
    var a := [Member("message", Str(message))];
    assert [] + a == a;
    assert a + [Member("code", Int(code))] == [Member("message", Str(message)), Member("code", Int(code))];
    Fresh([], "message", Str(message));
    Fresh(a, "code", Int(code));
    ThreeWritten("error", Obj(a + [Member("code", Int(code))]), id);
    hide Put;
  }

  // ----- ids -----

  /** Ids are gathered in order, one from each element that has one. */
  lemma {:induction false} IdsInOrder(us: seq<Json>, vs: seq<Json>)
    ensures Ids(us + vs) == Ids(us) + Ids(vs)
  {
    if vs == [] {
      assert us + vs == us;
    } else {
      var init := vs[..|vs| - 1];
      assert (us + vs)[..|us + vs| - 1] == us + init;
      IdsInOrder(us, init);
    }
  }

  /** One element with its id, or without. */
  lemma IdsOfOne(v: Json)
    requires v.Obj? ==> DistinctKeys(v.members)
    ensures forall id :: Ids([v]) == [id] <==> v.Obj? && Member("id", id) in v.members
    ensures Ids([v]) == [] <==> v.Obj? ==> forall m | m in v.members :: m.key != "id"
  {
    assert [v][..0] == [];
    var id := Get(v, "id");
    assert Ids([v]) == [] + if id.Some? then [id.value] else [];
    assert forall x: Json :: [x][0] == x;
    if v.Obj? { EntryUnder(v.members, "id"); }
  }

  /** The id under which a message is registered or looked up. */
  lemma IdExactly(v: Json)
    requires v.Obj? ==> DistinctKeys(v.members)
    ensures v.Obj? ==> forall id :: IdOf(v) == Some(id) <==> Member("id", id) in v.members
    ensures v.Arr? ==> IdOf(v) == if Ids(v.elems) == [] then None else Some(Arr(Ids(v.elems)))
    ensures !v.Obj? && !v.Arr? ==> IdOf(v) == None
  {
    if v.Obj? { EntryUnder(v.members, "id"); }
  }

  // ----- messages coming in, written out -----

  /** The method in this place is the first one of its name. */
  predicate Registered(methods: seq<Method>, i: nat, name: string) {
    i < |methods| && methods[i].name == name && forall j :: 0 <= j < i ==> methods[j].name != name
  }

  lemma {:induction false} FirstFound(methods: seq<Method>, i: nat, name: string)
    requires Registered(methods, i, name)
    ensures FindMethod(methods, name) == Some(methods[i].handler)
  {
    if i > 0 { FirstFound(methods[1..], i - 1, name); }
  }

  lemma {:induction false} NoneFound(methods: seq<Method>, name: string)
    requires forall i :: 0 <= i < |methods| ==> methods[i].name != name
    ensures FindMethod(methods, name) == None
  {
    if methods != [] { NoneFound(methods[1..], name); }
  }

  /** A call of a registered method: its handler is queued, with these params and this id, and nothing else happens. */
  lemma CallQueued(s: Server, i: nat, name: string, params: Option<Json>, id: Option<Json>, arg: nat)
    requires Registered(s.methods, i, name)
    requires params.Some? ==> params.value.Arr? || params.value.Obj?
    requires id.Some? ==> id.value.Str? || id.value.Int?
    ensures var obj := Obj(MessageOf(Some(Str("2.0")), Some(Str(name)), params, id));
            var t := Process(s, obj, arg); var r := if id.Some? then Some(s.next) else None;
            && t.queue == s.queue + [Invoke(s.methods[i].handler, r, params, id)]
            && t.deliveries == s.deliveries && t.owing == s.owing
            && (id.Some? ==> t.requests == s.requests[s.next := Request(false, [], 0, 0, id, arg)])
            && (id == None ==> t.requests == s.requests - {s.next})
  {
    FirstFound(s.methods, i, name);
    MessageEntries(Some(Str("2.0")), Some(Str(name)), params, id);
    BuiltCall(Some(Str("2.0")), Some(Str(name)), params, id);
    hide MessageOf, Get, CallTypeOf, FindMethod, Registered;
    Queues(Create(s, false, arg), s.next, Obj(MessageOf(Some(Str("2.0")), Some(Str(name)), params, id)),
           s.methods[i].handler);
    hide Dispatch;
  }

  /** A call whose handler is found. */
  lemma Queues(s: Server, r: nat, call: Json, h: nat)
    requires r in s.requests && CallTypeOf(call) != InvalidCall
    requires FindMethod(s.methods, MethodName(call)) == Some(h)
    ensures var id := Get(call, "id"); var t := Dispatch(s, r, call);
            && t == s.(requests := t.requests, queue := t.queue)
            && t.queue == s.queue + [Invoke(h, if id.Some? then Some(r) else None, Get(call, "params"), id)]
            && t.requests == (if id.Some? then s.requests[r := s.requests[r].(methodId := id)] else s.requests)
  {
    hide IsCall, Get, FindMethod, MethodName;
  }

  /** A call of a method nobody has registered: a request is refused under its id, a notification ignored. */
  lemma CallNotFound(s: Server, name: string, params: Option<Json>, id: Option<Json>, arg: nat)
    requires forall i :: 0 <= i < |s.methods| ==> s.methods[i].name != name
    requires params.Some? ==> params.value.Arr? || params.value.Obj?
    requires id.Some? ==> id.value.Str? || id.value.Int?
    ensures var obj := Obj(MessageOf(Some(Str("2.0")), Some(Str(name)), params, id));
            var t := Process(s, obj, arg);
            && t.queue == s.queue + (if id == None then []
                                     else [Result(s.next, Some(ErrorReply("Method not found", -32601, id.value)), id)])
            && t.deliveries == s.deliveries && t.owing == s.owing
  {
    NoneFound(s.methods, name);
    MessageEntries(Some(Str("2.0")), Some(Str(name)), params, id);
    BuiltCall(Some(Str("2.0")), Some(Str(name)), params, id);
    if id.Some? { RepliesWritten(id.value, Null); }
    hide MessageOf, Get, CallTypeOf, FindMethod, ErrorReply, NotFoundReply;
    assert s.queue + [] == s.queue;
  }

  /** An object that is no call is refused without an id. */
  lemma InvalidQueued(s: Server, obj: Json, arg: nat)
    requires obj.Obj? && CallTypeOf(obj) == InvalidCall
    ensures var t := Process(s, obj, arg);
            && t.queue == s.queue + [Result(s.next, Some(ErrorReply("Invalid request", -32600, Null)), None)]
            && t.deliveries == s.deliveries && t.owing == s.owing
  {
    RepliesWritten(Null, Null);
    hide CallTypeOf, ErrorReply, InvalidReply;
  }

  /** Whatever else it holds: without the version, or with an id of the wrong kind, it is no message of the protocol. */
  ghost predicate Foreign(ms: seq<Member>) {
    || Member("jsonrpc", Str("2.0")) !in ms
    || exists m :: m in ms && m.key == "id" && (m.value.Arr? || m.value.Obj? || m.value.Double?)
  }

  /** Such an object is neither a response nor a call, and is refused. */
  lemma ForeignRefused(s: Server, ms: seq<Member>, arg: nat)
    requires Keyed(Obj(ms)) && Foreign(ms)
    ensures !IsResponse(Obj(ms))
    ensures Process(s, Obj(ms), arg).queue
            == s.queue + [Result(s.next, Some(ErrorReply("Invalid request", -32600, Null)), None)]
  {
    ResponseExactly(ms);
    CallExactly(ms);
    hide IsResponse, CallTypeOf, Process, ErrorReply;
    InvalidQueued(s, Obj(ms), arg);
  }

  /** What is neither an object nor a batch with elements is answered at once, and nothing is queued for it. */
  lemma OthersAnswered(s: Server, obj: Json, arg: nat)
    requires !obj.Obj? && (obj.Arr? ==> obj.elems == [])
    ensures Process(s, obj, arg)
            == s.(deliveries := s.deliveries + [Delivery(None, arg, Some(ErrorReply("Invalid request", -32600, Null)))])
  {
    RepliesWritten(Null, Null);
    hide ErrorReply, InvalidReply;
  }
}
