/**
 * The `tools/call` handler of the standalone MCP server: a switch on the
 * tool name over its own client instance, where a thrown error becomes an
 * error result instead of a coded JSON answer.
 */
module McpServer {
  import opened Wrappers
  import opened Bytes
  import opened FileSystem
  import opened TsClient
  import opened ToolCalls
  import CommonTools

  /** A `tools/call` request: a tool the switch knows, or any other name. */
  datatype ToolRequest = Known(call: Call) | Unknown(name: string)

  /** Why a call ended in an error result. */
  datatype Thrown = ClientError(err: Err) | UnknownTool(name: string)

  /** The text content of a result. */
  datatype Content =
    | PayloadText(payload: Payload)
    | XyText(xy: Http.Xy)
    | WhoamiOk
    | WhoamiNg(err: Err)
    | ErrorText(thrown: Thrown)

  /** A `CallToolResult` with one text item. */
  datatype CallResult = CallResult(content: Content, isError: bool)

  /**
   * The result for a request and the outcome of its client call (`None`
   * when no call was made). `whoami` catches its own failure and reports it
   * as text; every other failure, and an unknown name, is an error result.
   */
  function Respond(req: ToolRequest, outcome: Option<Result<Payload, Err>>): (r: CallResult)
    requires req.Known? <==> outcome.Some?
    ensures r.isError <==> req.Unknown? || (!req.call.WhoamiCall? && outcome.value.Failure?)
    ensures r.isError <==> r.content.ErrorText?
    ensures req.Unknown? ==> r.content == ErrorText(UnknownTool(req.name))
    ensures req.Known? && outcome.value.Failure? && !req.call.WhoamiCall? ==> r.content == ErrorText(ClientError(outcome.value.error))
    ensures req.Known? && req.call.WhoamiCall? ==> r.content == (if outcome.value.Success? then WhoamiOk else WhoamiNg(outcome.value.error))
    ensures r.content.XyText? <==>
      (req.Known? && req.call.AddplotCall? && req.call.mode == Some("xy") && outcome.value.Success? && outcome.value.value.AddplotPayload?)
    ensures r.content.XyText? ==> r.content.xy == outcome.value.value.addplot.xyData
    ensures r.content.PayloadText? ==> outcome == Some(Success(r.content.payload))
  {
    match req
    case Unknown(name) => CallResult(ErrorText(UnknownTool(name)), true)
    case Known(call) =>
      match outcome.value
      case Failure(e) =>
        if call.WhoamiCall? then CallResult(WhoamiNg(e), false) else CallResult(ErrorText(ClientError(e)), true)
      case Success(p) =>
        if call.WhoamiCall? then CallResult(WhoamiOk, false)
        else if call.AddplotCall? && call.mode == Some("xy") && p.AddplotPayload? then CallResult(XyText(p.addplot.xyData), false)
        else CallResult(PayloadText(p), false)
  }

  /**
   * The server and the tool modules agree on every outcome except a failure
   * outside `whoami`, which the server reports as an error result and a tool
   * as a coded answer.
   */
  lemma ServerAndToolsAgree(call: Call, outcome: Result<Payload, Err>)
    ensures Respond(Known(call), Some(outcome)).isError <==> CommonTools.Wrap(call, outcome).Failed? && !call.WhoamiCall?
    ensures CommonTools.Wrap(call, outcome).Answer? <==> Respond(Known(call), Some(outcome)).content.PayloadText?
    ensures CommonTools.Wrap(call, outcome).XyOnly? <==> Respond(Known(call), Some(outcome)).content.XyText?
    ensures CommonTools.Wrap(call, outcome).SessionActive? <==> Respond(Known(call), Some(outcome)).content == WhoamiOk
  {
  }

  /**
   * Handles one `tools/call` request: a known tool runs its client
   * operation and the outcome is reported by `Respond`; an unknown name
   * touches neither the client nor the file system.
   */
  method HandleCall(client: Client, req: ToolRequest, fs: Fs, server: Http.Server, decode: string -> seq<byte>)
    returns (r: CallResult, outcome: Option<Result<Payload, Err>>, after: Fs)
    modifies client`sent, client`sessionKey, client`mapNo, client`shareUrl, client`currentAddPlotNo
    ensures outcome.Some? <==> req.Known?
    ensures r == Respond(req, outcome)
    ensures req.Unknown? ==> after == fs && client.sent == old(client.sent) && client.sessionKey == old(client.sessionKey)
    ensures !(req.Known? && req.call.ExportMapCall?) ==> after == fs
  {
    match req {
      case Unknown(_) =>
        outcome, after := None, fs;
      case Known(call) =>
        var o;
        o, after := Perform(client, call, fs, server, decode);
        outcome := Some(o);
    }
    r := Respond(req, outcome);
  }
}
