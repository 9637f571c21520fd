/**
 * The toorPIA API as the clients see it. The server is an oracle: each
 * endpoint is a function from the session key and the request to the reply,
 * and the clients keep a log of the requests they send.
 */
module Http {
  import opened Wrappers
  import opened Bytes

  /** `Response.ok` of `fetch`: a 2xx status. */
  predicate IsOk(status: int) {
    200 <= status <= 299
  }

  /** Whether a cached session key counts as set: Python's and JavaScript's truth value, false for a missing or empty key. */
  predicate Truthy(key: Option<string>) {
    key.Some? && key.value != ""
  }

  /** A table in pandas' `orient="split"` form, as both clients forward it. */
  datatype Frame = Frame(columns: seq<string>, index: seq<string>, data: seq<seq<Option<real>>>)

  /** Coordinates of plotted points. */
  type Xy = seq<seq<real>>

  /** The `identnaParams` object of a fit request. */
  datatype Identna = Identna(resolution: Option<real>, effectiveRadius: Option<real>)

  /** The JSON body of `POST /data/fit_transform`: the table plus its optional fields (`mapLabel` is the `label` key). */
  datatype FitBody = FitBody(
    data: Frame,
    mapLabel: Field<string>,
    tag: Field<string>,
    description: Field<string>,
    weightOption: Field<string>,
    typeOption: Field<string>,
    randomSeed: Field<int>,
    identnaParams: Field<Identna>)

  /**
   * The JSON value of `mapNo` in an add-plot body: a number, or `true` /
   * `false` when Python was handed a boolean, which it sends as it is.
   */
  datatype MapNoJson = Num(n: int) | Flag(b: bool)

  /** The JSON body of `POST /data/addplot`. */
  datatype AddplotBody = AddplotBody(
    data: Frame,
    mapNo: MapNoJson,
    weightOption: Field<string>,
    typeOption: Field<string>,
    detabnMaxWindow: Field<real>,
    detabnRateThreshold: Field<real>,
    detabnThreshold: Field<real>,
    detabnPrintScore: Field<bool>)

  /** One file of a multipart upload. */
  datatype Upload = Upload(fileName: string, content: seq<byte>)

  /** The read-only endpoints. */
  datatype Query =
    | ListMaps
    | ListAddplots(mapNo: int)
    | GetAddplot(mapNo: int, addplotNo: int)
    | GetAddplotFeatures(mapNo: int, addplotNo: int, tscore: bool)

  /** A request as it leaves the client; every one but `Login` carries the session key. */
  datatype Request =
    | Login(apiKey: string)
    | FitTransform(key: string, fit: FitBody)
    | Addplot(key: string, addplot: AddplotBody)
    | FitTransformWaveform(key: string, files: seq<Upload>)
    | AddplotWaveform(key: string, mapNo: int, files: seq<Upload>)
    | CompareChecksum(key: string, checksum: string)
    | ImportMap(key: string, mapData: map<string, string>)
    | ExportMap(key: string, mapNo: int)
    | Get(key: string, query: Query)

  datatype LoginReply = LoginReply(status: int, sessionKey: Option<string>)

  datatype FitReply = FitReply(status: int, xyData: Xy, mapNo: Option<int>, shareUrl: Option<string>)

  datatype AddplotReply = AddplotReply(
    status: int,
    xyData: Xy,
    addPlotNo: Option<int>,
    abnormalityStatus: Option<string>,
    abnormalityScore: Option<real>,
    shareUrl: Option<string>)

  /** The parsed body of a checksum comparison; `mapNo` may be missing, null, or a number. */
  datatype CompareBody = CompareBody(mapNo: Field<int>, shareUrl: Option<string>)

  /** `body` is `None` when the reply is not JSON. */
  datatype CompareReply = CompareReply(status: int, body: Option<CompareBody>)

  datatype ImportReply = ImportReply(status: int, mapNo: Field<int>, shareUrl: Option<string>)

  /** `mapData` lists the object's entries in the order the JSON text gives them. */
  datatype ExportReply = ExportReply(status: int, mapData: Field<seq<(string, string)>>, shareUrl: Option<string>)

  /** A read-only reply: its JSON text, and the share URL where the endpoint returns one. */
  datatype GetReply = GetReply(status: int, body: string, shareUrl: Option<string>)

  /** The server: one reply function per endpoint. */
  datatype Server = Server(
    login: string -> LoginReply,
    fitTransform: (string, FitBody) -> FitReply,
    addplot: (string, AddplotBody) -> AddplotReply,
    fitWaveform: (string, seq<Upload>) -> FitReply,
    addplotWaveform: (string, int, seq<Upload>) -> AddplotReply,
    compareChecksum: (string, string) -> CompareReply,
    importMap: (string, map<string, string>) -> ImportReply,
    exportMap: (string, int) -> ExportReply,
    get: (string, Query) -> GetReply)
}
