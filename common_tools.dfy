/**
 * The common MCP tools: file-type detection by extension and header, the
 * session check, and the wrappers that turn every client exception into an
 * `{ok: false, code, reason}` answer.
 */
module CommonTools {
  import opened Wrappers
  import opened Bytes
  import opened Text
  import opened FileSystem
  import opened TsClient
  import opened ToolCalls

  // ---------------------------------------------------------------- extensions

  /** `p` without its trailing '/' characters. */
  function TrimSlashes(p: Path): (r: Path)
    ensures |r| <= |p| && r == p[..|r|]
    ensures |r| > 0 ==> r[|r| - 1] != '/'
    ensures forall i :: |r| <= i < |p| ==> p[i] == '/'
    decreases |p|
  {
    if |p| > 0 && p[|p| - 1] == '/' then TrimSlashes(p[..|p| - 1]) else p
  }

  /** The last component of a path, as `path.basename` gives it. */
  function LastComponent(p: Path): (base: string)
    ensures '/' !in base
  {
    var t := TrimSlashes(p);
    t[LastIndexOf(t, '/') + 1..]
  }

  /**
   * Node's `path.extname`: from the last '.' of the last component to its
   * end; empty when there is no '.', when the only '.' opens the name, and
   * for "..".
   */
  function ExtName(p: Path): (ext: string)
    ensures ext == "" || (ext[0] == '.' && '/' !in ext && forall j :: 0 < j < |ext| ==> ext[j] != '.')
    ensures ext != "" ==> EndsWith(LastComponent(p), ext) && |ext| < |LastComponent(p)|
    ensures ext == "" <==>
      LastComponent(p) == ".." || forall i :: 0 < i < |LastComponent(p)| ==> LastComponent(p)[i] != '.'
  {
    var base := LastComponent(p);
    var d := LastIndexOf(base, '.');
    if d <= 0 || base == ".." then "" else base[d..]
  }

  /** Lower-cases the ASCII letters, leaving every other character as it is. */
  function AsciiLower(s: string): (r: string)
    ensures |r| == |s|
    ensures forall i :: 0 <= i < |s| ==> r[i] == (if 'A' <= s[i] <= 'Z' then (s[i] as int + 32) as char else s[i])
  {
    seq(|s|, i requires 0 <= i < |s| => if 'A' <= s[i] <= 'Z' then (s[i] as int + 32) as char else s[i])
  }

  /** An extension is ".csv" once lower-cased exactly when its letters spell csv in either case. */
  lemma CsvExtensionAnyCase(ext: string)
    ensures AsciiLower(ext) == ".csv" <==> |ext| == 4 && ext[0] == '.' && ext[1] in "cC" && ext[2] in "sS" && ext[3] in "vV"
  {
    if |ext| == 4 && ext[0] == '.' && ext[1] in "cC" && ext[2] in "sS" && ext[3] in "vV" {
      assert AsciiLower(ext) == ".csv";
    }
  }

  /**
   * The header check: the first four bytes, read as ASCII (which clears
   * each byte's top bit), spell "RIFF".
   */
  predicate IsRiff(content: seq<byte>) {
    |content| >= 4
    && content[0] % 128 == 'R' as int && content[1] % 128 == 'I' as int
    && content[2] % 128 == 'F' as int && content[3] % 128 == 'F' as int
  }

  datatype Kind = Csv | Wav | Unknown

  /** Why `detectFileType` answered as it did. */
  datatype Reason =
    | CsvByExtension
    | WavByRiffHeader
    | NoRiffHeader
    | HeaderUnreadable
    | UnknownExtension(ext: string)
    | FileDoesNotExist

  /** The `FileTypeResponse` of the tool: `kind` when `ok`, `code` when not. */
  datatype FileTypeResponse = FileTypeResponse(ok: bool, kind: Option<Kind>, code: Option<string>, reason: Reason)

  /** `detectFileType` on a resolved path. */
  function DetectFileType(fs: Fs, path: Path): (r: FileTypeResponse)
    ensures !r.ok <==> path !in fs.tree
    ensures !r.ok ==> r.code == Some("FILE_NOT_FOUND") && r.kind.None?
    ensures r.ok ==> r.code.None? && r.kind.Some?
    ensures r.kind == Some(Csv) <==> path in fs.tree && AsciiLower(ExtName(path)) == ".csv"
    ensures r.kind == Some(Wav) <==> path in fs.tree && AsciiLower(ExtName(path)) == ".wav" && IsFile(fs, path) && IsRiff(fs.tree[path].content)
    ensures r.ok && AsciiLower(ExtName(path)) != ".csv" && AsciiLower(ExtName(path)) != ".wav" ==> r.kind == Some(Unknown)
  {
    if path !in fs.tree then FileTypeResponse(false, None, Some("FILE_NOT_FOUND"), FileDoesNotExist)
    else
      var ext := AsciiLower(ExtName(path));
      if ext == ".csv" then FileTypeResponse(true, Some(Csv), None, CsvByExtension)
      else if ext == ".wav" then
        if fs.tree[path].Dir? then FileTypeResponse(true, Some(Unknown), None, HeaderUnreadable)
        else if IsRiff(fs.tree[path].content) then FileTypeResponse(true, Some(Wav), None, WavByRiffHeader)
        else FileTypeResponse(true, Some(Unknown), None, NoRiffHeader)
      else FileTypeResponse(true, Some(Unknown), None, UnknownExtension(ext))
  }

  /** A ".csv" name is classified without looking at its content. */
  lemma CsvIgnoresContent(fs1: Fs, fs2: Fs, path: Path)
    requires path in fs1.tree && path in fs2.tree
    requires AsciiLower(ExtName(path)) == ".csv"
    ensures DetectFileType(fs1, path) == DetectFileType(fs2, path)
  {
  }

  // ---------------------------------------------------------------- whoami and the wrappers

  /** The answer of a tool of this module: the payload, or the error code with the message of what was thrown. */
  datatype Response =
    | Answer(payload: Payload)
    | XyOnly(xy: Http.Xy)
    | SessionActive
    | Failed(code: string, reason: Err)
    | NotImplemented

  /** The error code each tool reports when its client call throws. */
  function FailureCode(call: Call): string {
    match call
    case FitTransformCall(_, _, _, _, _, _, _, _, _) => "FIT_TRANSFORM_FAILED"
    case AddplotCall(_, _, _, _, _, _, _, _, _) => "ADDPLOT_FAILED"
    case ListMapCall => "LIST_MAP_FAILED"
    case ListAddplotsCall(_) => "LIST_ADDPLOTS_FAILED"
    case GetAddplotCall(_, _) => "GET_ADDPLOT_FAILED"
    case GetAddplotFeaturesCall(_, _, _) => "GET_ADDPLOT_FEATURES_FAILED"
    case FitTransformWaveformCall(_) => "FIT_TRANSFORM_WAVEFORM_FAILED"
    case AddplotWaveformCall(_, _) => "ADDPLOT_WAVEFORM_FAILED"
    case ExportMapCall(_, _) => "EXPORT_MAP_FAILED"
    case ImportMapCall(_) => "IMPORT_MAP_FAILED"
    case WhoamiCall => "AUTH_FAILED"
  }

  /** Tools of different kinds report different codes, so a code names the tool that failed. */
  lemma FailureCodesIdentifyTheTool(a: Call, b: Call)
    requires FailureCode(a) == FailureCode(b)
    ensures a.FitTransformCall? <==> b.FitTransformCall?
    ensures a.AddplotCall? <==> b.AddplotCall?
    ensures a.ListMapCall? <==> b.ListMapCall?
    ensures a.ListAddplotsCall? <==> b.ListAddplotsCall?
    ensures a.GetAddplotCall? <==> b.GetAddplotCall?
    ensures a.GetAddplotFeaturesCall? <==> b.GetAddplotFeaturesCall?
    ensures a.FitTransformWaveformCall? <==> b.FitTransformWaveformCall?
    ensures a.AddplotWaveformCall? <==> b.AddplotWaveformCall?
    ensures a.ExportMapCall? <==> b.ExportMapCall?
    ensures a.ImportMapCall? <==> b.ImportMapCall?
    ensures a.WhoamiCall? <==> b.WhoamiCall?
  {
  }

  /**
   * A tool's answer for the outcome of its client call: a failure never
   * escapes as an exception. The addplot tool in mode "xy" answers with the
   * coordinates alone, and `whoami` with the session state instead of the
   * map list it fetched.
   */
  function Wrap(call: Call, outcome: Result<Payload, Err>): (r: Response)
    ensures r.Failed? <==> outcome.Failure?
    ensures outcome.Failure? ==> r == Failed(FailureCode(call), outcome.error)
    ensures r.SessionActive? <==> outcome.Success? && call.WhoamiCall?
    ensures r.XyOnly? <==> outcome.Success? && call.AddplotCall? && call.mode == Some("xy") && outcome.value.AddplotPayload?
    ensures r.XyOnly? ==> r.xy == outcome.value.addplot.xyData
    ensures r.Answer? ==> outcome == Success(r.payload)
    ensures !r.NotImplemented?
  {
    match outcome
    case Failure(e) => Failed(FailureCode(call), e)
    case Success(p) =>
      if call.WhoamiCall? then SessionActive
      else if call.AddplotCall? && call.mode == Some("xy") && p.AddplotPayload? then XyOnly(p.addplot.xyData)
      else Answer(p)
  }

  predicate IsWaveform(call: Call) {
    call.FitTransformWaveformCall? || call.AddplotWaveformCall?
  }

  /**
   * One tool of the tool modules: the waveform tools answer NOT_IMPLEMENTED
   * without calling the client when the WAV workflow is switched off;
   * every other call runs the client operation and wraps its outcome.
   */
  method RunTool(client: Client, call: Call, fs: Fs, server: Http.Server, decode: string -> seq<byte>, wavEnabled: bool)
    returns (r: Response, outcome: Option<Result<Payload, Err>>, after: Fs)
    modifies client`sent, client`sessionKey, client`mapNo, client`shareUrl, client`currentAddPlotNo
    ensures outcome.None? <==> IsWaveform(call) && !wavEnabled
    ensures outcome.None? ==> r == NotImplemented && after == fs && client.sent == old(client.sent)
    ensures outcome.Some? ==> r == Wrap(call, outcome.value)
    ensures !call.ExportMapCall? ==> after == fs
  {
    if IsWaveform(call) && !wavEnabled {
      return NotImplemented, None, fs;
    }
    var o;
    o, after := Perform(client, call, fs, server, decode);
    r, outcome := Wrap(call, o), Some(o);
  }
}
