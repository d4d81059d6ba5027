/** JSON-RPC messages of src/json_rpc.c: what a call is, what a response is, and the replies the server builds. */
module Messages {
  import opened Values

  const VERSION := "2.0"
  const INVALID_REQUEST := -32600
  const METHOD_NOT_FOUND := -32601
  const INTERNAL_ERROR := -32603

  datatype CallType = RequestCall | NotificationCall | InvalidCall

  predicate HasVersion(v: Json) { Get(v, "jsonrpc") == Some(Str(VERSION)) }

  predicate Structured(v: Json) { v.Obj? || v.Arr? }

  /** Section 4 of the JSON-RPC 2.0 Specification, as the program reads it: ids are strings or ints. */
  predicate IsCall(v: Json) {
    && v.Obj? && HasVersion(v)
    && (Get(v, "params").Some? ==> Structured(Get(v, "params").value))
    && Get(v, "method").Some? && Get(v, "method").value.Str?
    && (Get(v, "id").Some? ==> Get(v, "id").value.Str? || Get(v, "id").value.Int?)
  }

  function CallTypeOf(v: Json): CallType {
    if !IsCall(v) then InvalidCall else if Get(v, "id") == None then NotificationCall else RequestCall
  }

  /** `eval_call_type` */
  method EvalCallType(obj: Json) returns (t: CallType)
    ensures t == CallTypeOf(obj)
  {
    if !obj.Obj? { return InvalidCall; }
    var jVar := Get(obj, "params");
    if jVar.Some? && !jVar.value.Obj? && !jVar.value.Arr? { return InvalidCall; }
    jVar := Get(obj, "jsonrpc");
    if jVar == None || !jVar.value.Str? || jVar.value.s != VERSION { return InvalidCall; }
    jVar := Get(obj, "method");
    if jVar == None || !jVar.value.Str? { return InvalidCall; }
    jVar := Get(obj, "id");
    if jVar.Some? && !jVar.value.Str? && !jVar.value.Int? { return InvalidCall; }
    else if jVar == None { return NotificationCall; }
    return RequestCall;
  }

  /** An error object with a string message and an int code. */
  predicate IsError(v: Json) {
    && v.Obj?
    && Get(v, "message").Some? && Get(v, "message").value.Str?
    && Get(v, "code").Some? && Get(v, "code").value.Int?
  }

  /** Section 5 of the JSON-RPC 2.0 Specification, as the program reads it. */
  predicate IsResponseObject(v: Json) {
    && v.Obj? && HasVersion(v)
    && (Get(v, "id").Some? ==> var id := Get(v, "id").value; id.Str? || id.Int? || id.Bool? || id.Null?)
    && (Get(v, "result").Some? || (Get(v, "error").Some? && IsError(Get(v, "error").value)))
  }

  /** A response that names the request it answers. */
  predicate IsReply(v: Json) { IsResponseObject(v) && Get(v, "id").Some? }

  predicate IsResponse(v: Json) {
    if v.Arr? then forall e | e in v.elems :: IsResponseObject(e) else IsResponseObject(v)
  }

  /** `is_response_single` */
  method IsResponseSingle(resp: Json) returns (yes: bool)
    ensures yes == IsResponseObject(resp)
  {
    if !resp.Obj? { return false; }
    var jVar := Get(resp, "jsonrpc");
    if jVar == None || !jVar.value.Str? || jVar.value.s != VERSION { return false; }
    jVar := Get(resp, "id");
    if jVar.Some? && !jVar.value.Str? && !jVar.value.Int? && !jVar.value.Bool? && !jVar.value.Null? { return false; }
    jVar := Get(resp, "result");
    if jVar.Some? { return true; }
    var jErr := Get(resp, "error");
    if jErr == None || !jErr.value.Obj? { return false; }
    jVar := Get(jErr.value, "message");
    if jVar == None || !jVar.value.Str? { return false; }
    jVar := Get(jErr.value, "code");
    if jVar == None || !jVar.value.Int? { return false; }
    return true;
  }

  /** `json_rpc_is_response` */
  method JsonRpcIsResponse(resp: Json) returns (yes: bool)
    ensures yes == IsResponse(resp)
  {
    if !resp.Arr? {
      yes := IsResponseSingle(resp);
      return;
    }
    for i := 0 to |resp.elems|
      invariant forall e | e in resp.elems[..i] :: IsResponseObject(e)
    {
      var one := IsResponseSingle(resp.elems[i]);
      if !one {
        assert resp.elems[i] in resp.elems;
        return false;
      }
      assert resp.elems[..i + 1] == resp.elems[..i] + [resp.elems[i]];
    }
    assert resp.elems[..|resp.elems|] == resp.elems;
    return true;
  }

  // ----- replies -----

  /** `json_object_add` to a new object; None stands for NULL, which it refuses. */
  function Put(obj: Option<Json>, key: string, v: Option<Json>): Option<Json> {
    if obj.Some? && obj.value.Obj? && v.Some? then Some(Obj(With(obj.value.members, key, v.value))) else None
  }

  /** `prepare_response_object` */
  function PrepareResponse(id: Option<Json>, res: Option<Json>): Option<Json> {
    Put(Put(Put(Some(Obj([])), "jsonrpc", Some(Str(VERSION))), "result", res), "id", id)
  }

  function ErrorObject(message: string, code: Int32): Option<Json> {
    Put(Put(Some(Obj([])), "message", Some(Str(message))), "code", Some(Int(code)))
  }

  /** `prepare_error_response` */
  function PrepareError(message: string, code: Int32, id: Option<Json>): Option<Json> {
    Put(Put(Put(Some(Obj([])), "jsonrpc", Some(Str(VERSION))), "error", ErrorObject(message, code)), "id", id)
  }

  /** What `json_rpc_return` queues: a handler that returns NULL is answered by an internal error. */
  function MakeReply(id: Option<Json>, res: Option<Json>): Option<Json> {
    var r := PrepareResponse(id, res);
    if r.Some? then r else PrepareError("Internal error", INTERNAL_ERROR, id)
  }

  function InvalidReply(): Option<Json> { PrepareError("Invalid request", INVALID_REQUEST, Some(Null)) }
  function NotFoundReply(id: Json): Option<Json> { PrepareError("Method not found", METHOD_NOT_FOUND, Some(id)) }

  /** The code of the error a reply carries. */
  function ErrorCode(reply: Json): Option<Json> {
    if Get(reply, "error").Some? then Get(Get(reply, "error").value, "code") else None
  }

  lemma PutGets(ms: seq<Member>, key: string, v: Json)
    requires DistinctKeys(ms)
    ensures Put(Some(Obj(ms)), key, Some(v)) == Some(Obj(With(ms, key, v))) && DistinctKeys(With(ms, key, v))
    ensures Get(Obj(With(ms, key, v)), key) == Some(v)
    ensures forall other :: other != key ==> Get(Obj(With(ms, key, v)), other) == Get(Obj(ms), other)
  {
    WithIsMapUpdate(ms, key, v);
  }

  /**
   A reply is there exactly when there is an id, and carries it. It carries the handler's result, or an internal
   error and no result when the handler gave none.
   */
  lemma ReplyContents(id: Option<Json>, res: Option<Json>)
    ensures MakeReply(id, res).Some? <==> id.Some?
    ensures id.Some? ==> Get(MakeReply(id, res).value, "id") == id && Get(MakeReply(id, res).value, "result") == res
    ensures id.Some? && res.Some? ==> Get(MakeReply(id, res).value, "error") == None
    ensures id.Some? && res == None ==> ErrorCode(MakeReply(id, res).value) == Some(Int(INTERNAL_ERROR))
    ensures id.Some? && (id.value.Str? || id.value.Int? || id.value.Null?) ==> IsReply(MakeReply(id, res).value)
  {
    if id.Some? {
      if res.Some? {
        SuccessContents(id.value, res.value);
        hide PrepareResponse, PrepareError, Get;
      } else {
        ErrorContents("Internal error", INTERNAL_ERROR, id.value);
        assert PrepareResponse(id, res) == None;
        hide PrepareResponse, PrepareError, Get;
      }
    }
  }

  lemma SuccessContents(id: Json, res: Json)
    ensures var r := PrepareResponse(Some(id), Some(res));
            && r.Some? && r.value.Obj? && Get(r.value, "id") == Some(id) && Get(r.value, "result") == Some(res)
            && Get(r.value, "error") == None && HasVersion(r.value)
  {
    PutGets([], "jsonrpc", Str(VERSION));
    var a := With([], "jsonrpc", Str(VERSION));
    PutGets(a, "result", res);
    PutGets(With(a, "result", res), "id", id);
    assert Get(Obj([]), "error") == None;
    hide With, Get;
  }

  lemma ErrorContents(message: string, code: Int32, id: Json)
    ensures var r := PrepareError(message, code, Some(id));
            && r.Some? && r.value.Obj? && Get(r.value, "id") == Some(id) && Get(r.value, "result") == None
                && HasVersion(r.value)
            && Get(r.value, "error").Some? && IsError(Get(r.value, "error").value)
            && ErrorCode(r.value) == Some(Int(code))
  {
    assert Get(Obj([]), "result") == None;
    hide With, Get;
    PutGets([], "message", Str(message));
    var e := With([], "message", Str(message));
    PutGets(e, "code", Int(code));
    var err := Obj(With(e, "code", Int(code)));
    assert IsError(err);
    hide IsError;
    PutGets([], "jsonrpc", Str(VERSION));
    var a := With([], "jsonrpc", Str(VERSION));
    PutGets(a, "error", err);
    PutGets(With(a, "error", err), "id", id);
  }

  /** Routing: every reply the server can build is read back as a response. */
  lemma RepliesAreResponses(id: Json, res: Option<Json>)
    requires id.Str? || id.Int? || id.Null?
    ensures IsReply(MakeReply(Some(id), res).value)
    ensures var r := NotFoundReply(id);
            r.Some? && IsReply(r.value) && Get(r.value, "id") == Some(id)
                && ErrorCode(r.value) == Some(Int(METHOD_NOT_FOUND))
    ensures var r := InvalidReply();
            r.Some? && IsReply(r.value) && Get(r.value, "id") == Some(Null)
                && ErrorCode(r.value) == Some(Int(INVALID_REQUEST))
  {
    ReplyContents(Some(id), res);
    ErrorContents("Method not found", METHOD_NOT_FOUND, id);
    ErrorContents("Invalid request", INVALID_REQUEST, Null);
    hide PrepareResponse, PrepareError, MakeReply, Get;
  }

  /**
   Routing, the other way: an object that the server accepts as a call is taken for a response if and only
   if it also has a `result`, or an `error` that is an error object.
   */
  lemma CallsAreNotResponses(v: Json)
    requires CallTypeOf(v) != InvalidCall
    ensures IsResponse(v) <==> Get(v, "result").Some? || (Get(v, "error").Some? && IsError(Get(v, "error").value))
  {
  }

  /** For a batch the two readings meet only in the empty array, which passes as a response. */
  lemma BatchesAreNotResponses(vs: seq<Json>)
    requires forall v | v in vs :: CallTypeOf(v) != InvalidCall && Get(v, "result") == None && Get(v, "error") == None
    ensures IsResponse(Arr(vs)) <==> vs == []
  {
    if vs != [] { assert vs[0] in vs && !IsResponseObject(vs[0]); }
  }

  // ----- ids -----

  /** The ids of those elements that have one. */
  function Ids(vs: seq<Json>): seq<Json> {
    if vs == [] then []
    else Ids(vs[..|vs| - 1]) + (var id := Get(vs[|vs| - 1], "id"); if id.Some? then [id.value] else [])
  }

  function IdOf(v: Json): Option<Json> {
    match v
    case Obj(_) => Get(v, "id")
    case Arr(vs) => if Ids(vs) == [] then None else Some(Arr(Ids(vs)))
    case _ => None
  }

  /** `get_id` */
  method GetId(req: Json) returns (id: Option<Json>)
    ensures id == IdOf(req)
  {
    if req.Obj? { return Get(req, "id"); }
    if !req.Arr? { return None; }
    var ids: seq<Json> := [];
    for i := 0 to |req.elems|
      invariant ids == Ids(req.elems[..i])
    {
      assert req.elems[..i + 1][..i] == req.elems[..i];
      var one := Get(req.elems[i], "id");
      if one.Some? { ids := ids + [one.value]; }
    }
    assert req.elems[..|req.elems|] == req.elems;
    if |ids| == 0 { return None; }
    return Some(Arr(ids));
  }
}
