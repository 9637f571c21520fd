/**
 * The MCP tools that forward to the TypeScript client: their arguments,
 * what each returns on success, and the client operation each performs.
 * Both the tool modules and the server's own `tools/call` switch run these
 * operations; they differ only in how they report the outcome.
 */
module ToolCalls {
  import opened Wrappers
  import opened Bytes
  import opened FileSystem
  import opened Http
  import opened TsClient

  /** A call of one client-backed tool, with the arguments the handler passes on. */
  datatype Call =
    | FitTransformCall(data: Frame, mapLabel: Option<string>, tag: Option<string>, description: Option<string>,
                       seed: Option<int>, weight: Option<string>, typ: Option<string>,
                       resolution: Option<real>, radius: Option<real>)
    | AddplotCall(data: Frame, explicitMapNo: Option<int>, weight: Option<string>, typ: Option<string>,
                  maxWindow: Option<real>, rateThreshold: Option<real>, threshold: Option<real>, printScore: Option<bool>,
                  mode: Option<string>)
    | ListMapCall
    | ListAddplotsCall(mapNo: int)
    | GetAddplotCall(mapNo: int, addplotNo: int)
    | GetAddplotFeaturesCall(mapNo: int, addplotNo: int, useTscore: Option<bool>)
    | FitTransformWaveformCall(files: seq<Path>)
    | AddplotWaveformCall(waveFiles: seq<Path>, explicitMapNo: Option<int>)
    | ExportMapCall(mapNo: int, exportDir: Path)
    | ImportMapCall(inputDir: Path)
    | WhoamiCall

  /** What a successful client call hands back to the tool. */
  datatype Payload =
    | FitPayload(fit: FitResult)
    | AddplotPayload(addplot: AddplotResult)
    | JsonPayload(json: string)
    | ExportPayload(exported: ExportResult)
    | ImportPayload(mapNo: Option<int>)

  /** The read-only query a call sends, for the calls that are one GET (`whoami` lists the maps). */
  function QueryOf(call: Call): (q: Option<Query>)
    ensures q.Some? <==> call.ListMapCall? || call.ListAddplotsCall? || call.GetAddplotCall? || call.GetAddplotFeaturesCall? || call.WhoamiCall?
    ensures call.WhoamiCall? || call.ListMapCall? ==> q == Some(ListMaps)
    ensures call.GetAddplotFeaturesCall? ==> q == Some(FeaturesQuery(call.mapNo, call.addplotNo, call.useTscore))
  {
    match call
    case ListMapCall => Some(ListMaps)
    case WhoamiCall => Some(ListMaps)
    case ListAddplotsCall(m) => Some(ListAddplots(m))
    case GetAddplotCall(m, a) => Some(GetAddplot(m, a))
    case GetAddplotFeaturesCall(m, a, t) => Some(FeaturesQuery(m, a, t))
    case _ => None
  }

  /**
   * Runs the client operation behind a tool call. Only an export writes
   * to the file system; only the upload and download calls read it.
   */
  method Perform(client: Client, call: Call, fs: Fs, server: Server, decode: string -> seq<byte>)
    returns (outcome: Result<Payload, Err>, after: Fs)
    modifies client`sent, client`sessionKey, client`mapNo, client`shareUrl, client`currentAddPlotNo
    ensures !call.ExportMapCall? ==> after == fs
    ensures client.apiKey == old(client.apiKey)
  {
    after := fs;
    match call {
      case FitTransformCall(data, mapLabel, tag, description, seed, weight, typ, resolution, radius) =>
        var r := client.FitTransformSplit(data, mapLabel, tag, description, seed, weight, typ, resolution, radius, server);
        outcome := if r.Success? then Success(FitPayload(r.value)) else Failure(r.error);
      case AddplotCall(data, mapNo, weight, typ, maxWindow, rateThreshold, threshold, printScore, _) =>
        var r := client.AddplotSplit(data, mapNo, weight, typ, maxWindow, rateThreshold, threshold, printScore, server);
        outcome := if r.Success? then Success(AddplotPayload(r.value)) else Failure(r.error);
      case FitTransformWaveformCall(files) =>
        var r := client.FitTransformWaveform(files, fs, server);
        outcome := if r.Success? then Success(FitPayload(r.value)) else Failure(r.error);
      case AddplotWaveformCall(files, mapNo) =>
        var r := client.AddplotWaveform(files, mapNo, fs, server);
        outcome := if r.Success? then Success(AddplotPayload(r.value)) else Failure(r.error);
      case ExportMapCall(mapNo, dir) =>
        var r;
        r, after := client.ExportMap(mapNo, dir, fs, server, decode);
        outcome := if r.Success? then Success(ExportPayload(r.value)) else Failure(r.error);
      case ImportMapCall(dir) =>
        var r := client.ImportMap(dir, fs, server);
        outcome := if r.Success? then Success(ImportPayload(r.value)) else Failure(r.error);
      case _ =>
        var r := client.Query(QueryOf(call).value, server);
        outcome := if r.Success? then Success(JsonPayload(r.value)) else Failure(r.error);
    }
  }
}
