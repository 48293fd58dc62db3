/** The minimal JSON-RPC dispatcher of the server: the request's method is
    routed to the MCP server's `list_tools` or `call_tool` request, and the
    response echoes the request id and carries either the result or an error
    object with code -32000. The MCP SDK's `server.request` is a parameter:
    a handler that returns a value or fails with a message. */
module Rpc {
  import opened Wrappers
  import opened Json

  datatype RpcMethod = ListTools | CallTool

  /** `method === "list_tools"`, `method === "call_tool"`, or the
      `Unsupported method: ${method}` error. */
  function RouteMethod(requested: Option<Json>): (r: Result<RpcMethod>)
    ensures r == Ok(ListTools) <==> requested == Some(JStr("list_tools"))
    ensures r == Ok(CallTool) <==> requested == Some(JStr("call_tool"))
    ensures r.Err? ==> r.error == "Unsupported method: " + ToJsString(requested)
  {
    if requested == Some(JStr("list_tools")) then Ok(ListTools)
    else if requested == Some(JStr("call_tool")) then Ok(CallTool)
    else Err("Unsupported method: " + ToJsString(requested))
  }

  /** The one error code the dispatcher reports. */
  const ServerError := -32000

  datatype Outcome = Success(result: Json) | Failure(code: int, message: string)

  /** The response object; `None` for an id the request did not carry. */
  datatype Response = Response(id: Option<Json>, outcome: Outcome)

  /** `err.message || String(err)`: an Error with an empty message prints as "Error". */
  function ErrorMessage(message: string): (r: string)
    ensures r != ""
    ensures message != "" ==> r == message
  {
    if message == "" then "Error" else message
  }

  /** `handleJsonRpcRequest(request)`. Destructuring a null request throws
      before the `try`, so that is the one case that rejects. */
  function HandleJsonRpcRequest(request: Json, sdk: (RpcMethod, Option<Json>) -> Result<Json>): Result<Response> {
    if request.JNull? then Err("Cannot destructure property 'id' of 'request' as it is null.")
    else
      var id := Get(request, "id");
      var params := Get(request, "params");
      var outcome :=
        match RouteMethod(Get(request, "method"))
        case Err(e) => Failure(ServerError, ErrorMessage(e))
        case Ok(m) =>
          (match sdk(m, params)
           case Ok(result) => Success(result)
           case Err(e) => Failure(ServerError, ErrorMessage(e)));
      Ok(Response(id, outcome))
  }

  /** The object `{jsonrpc: "2.0", id, ...(error ? {error} : {result})}` as
      JSON writes it: an undefined id is dropped. */
  function ResponseJson(r: Response): Json {
    var head := [("jsonrpc", JStr("2.0"))] + (if r.id.Some? then [("id", r.id.value)] else []);
    match r.outcome
    case Success(result) => JObj(head + [("result", result)])
    case Failure(code, message) =>
      JObj(head + [("error", JObj([("code", JNum(code)), ("message", JStr(message))]))])
  }

  /** Every response object says "2.0", carries the response's id when it
      has one, and exactly one of `error` or `result`. */
  lemma ResponseJsonFields(r: Response)
    ensures var j := ResponseJson(r);
      && Get(j, "jsonrpc") == Some(JStr("2.0"))
      && Get(j, "id") == r.id
      && (Get(j, "error").Some? <==> Get(j, "result").None?)
      && (r.outcome.Failure? ==>
            Get(j, "error") == Some(JObj([("code", JNum(r.outcome.code)), ("message", JStr(r.outcome.message))])))
      && (r.outcome.Success? ==> Get(j, "result") == Some(r.outcome.result))
  {
    var last := if r.outcome.Success? then ("result", r.outcome.result)
                else ("error", JObj([("code", JNum(r.outcome.code)), ("message", JStr(r.outcome.message))]));
    var other := if r.outcome.Success? then "error" else "result";
    var members := if r.id.Some? then [("jsonrpc", JStr("2.0")), ("id", r.id.value), last]
                   else [("jsonrpc", JStr("2.0")), last];
    assert ResponseJson(r) == JObj(members);
    EnvelopeMembers(members, r.id, last, other);
  }

  /** The member list `jsonrpc`, optional `id`, then one last member. */
  lemma EnvelopeMembers(members: seq<(string, Json)>, id: Option<Json>, last: (string, Json), other: string)
    requires last.0 in {"result", "error"} && other in {"result", "error"} && other != last.0
    requires members == [("jsonrpc", JStr("2.0"))] + (if id.Some? then [("id", id.value)] else []) + [last]
    ensures Get(JObj(members), "jsonrpc") == Some(JStr("2.0"))
    ensures Get(JObj(members), "id") == id
    ensures Get(JObj(members), last.0) == Some(last.1)
    ensures Get(JObj(members), other) == None
  {
    var n := |members|;
    GetMember(members, 0);
    GetMember(members, n - 1);
    if id.Some? {
      GetMember(members, 1);
    }
    assert forall j :: 0 <= j < n ==> members[j].0 != other;
  }

  /** Every request other than null is answered: the response echoes the
      request's id, and an error always has code -32000 and a non-empty
      message. */
  lemma ResponseEnvelope(request: Json, sdk: (RpcMethod, Option<Json>) -> Result<Json>)
    requires !request.JNull?
    ensures HandleJsonRpcRequest(request, sdk).Ok?
    ensures var response := HandleJsonRpcRequest(request, sdk).value;
      && response.id == Get(request, "id")
      && (response.outcome.Failure? ==> response.outcome.code == ServerError && response.outcome.message != "")
  {
  }

  /** A method other than the two routed ones is answered with the
      "Unsupported method" error, and the SDK is not consulted. */
  lemma UnsupportedMethod(request: Json, sdk: (RpcMethod, Option<Json>) -> Result<Json>)
    requires !request.JNull?
    requires Get(request, "method") != Some(JStr("list_tools")) && Get(request, "method") != Some(JStr("call_tool"))
    ensures HandleJsonRpcRequest(request, sdk) ==
      Ok(Response(Get(request, "id"), Failure(ServerError, "Unsupported method: " + ToJsString(Get(request, "method")))))
  {
  }

  /** A routed method answers with what the SDK handler returns, or with its
      failure message under code -32000. */
  lemma RoutedMethod(request: Json, sdk: (RpcMethod, Option<Json>) -> Result<Json>)
    requires !request.JNull? && RouteMethod(Get(request, "method")).Ok?
    ensures var m := RouteMethod(Get(request, "method")).value;
      var handled := sdk(m, Get(request, "params"));
      && (handled.Ok? ==> HandleJsonRpcRequest(request, sdk) == Ok(Response(Get(request, "id"), Success(handled.value))))
      && (handled.Err? ==>
            HandleJsonRpcRequest(request, sdk) == Ok(Response(Get(request, "id"), Failure(ServerError, ErrorMessage(handled.error)))))
  {
  }
}
