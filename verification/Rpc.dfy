/** JSON values and JSON-RPC messages, as the parser hands them over. */
module Rpc {
  import opened Common

  datatype Json =
    | Null
    | Bool(b: bool)
    | Number(n: int)
    | String(s: string)
    | Array(items: seq<Json>)
    | Object(members: map<string, Json>)

  datatype RpcId = NumberId(n: int) | StringId(s: string)

  /** Named `Request` in the source too: a request, or a notification when `id` is absent. */
  datatype Request = Request(meth: string, params: Json, id: Option<RpcId>)

  datatype RpcError = RpcError(error: string, details: Option<string>)

  datatype Response = Response(result: Option<Json>, error: Option<RpcError>, id: RpcId)

  datatype Message = Req(request: Request) | Resp(response: Response)

  datatype Error =
    | ConnectionClosed
    | BadJson
    | UnexpectedId(expected: int, got: int)
    | RpcFailure(rpcError: RpcError)
    | SchemaNotLoaded

  /** The requests among `wire`, in order. */
  function Requests(wire: seq<Message>): seq<Request> {
    if wire == [] then []
    else (if wire[0].Req? then [wire[0].request] else []) + Requests(wire[1..])
  }
}
