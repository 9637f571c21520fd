/**
 * The TypeScript `ToorPIAClient` of the MCP server: the same API as the
 * Python client, with its own session guard (which throws instead of
 * returning `None`), its own map-number rules, an upload that filters
 * add-plot artefacts and skips the checksum lookup, and a download that
 * stops at the first file it cannot write.
 */
module TsClient {
  import opened Wrappers
  import opened Bytes
  import opened Text
  import opened FileSystem
  import opened Http
  import opened Snapshot
  import Base64
  import Utf8

  /** The errors the client throws, by their cause. */
  datatype Err =
    | ApiKeyNotSet
    | AuthFailed(status: int)
    | NoSessionKey
    | NotAuthenticated
    | MapNoRequired
    | FileNotFound(path: Path)
    | ReadFailed(path: Path)
    | DirectoryNotFound(path: Path)
    | ListDirFailed(path: Path)
    | RequestFailed(endpoint: string, status: int)
    | MkdirFailed(path: Path)
    | SaveFailed(name: string)

  /** JavaScript's truth value of an optional number: `null`, `undefined` and 0 are false. */
  predicate NumTruthy(n: Option<int>) {
    n.Some? && n.value != 0
  }

  // ---------------------------------------------------------------- session guard

  /** The logins `ensureAuth` sends: none with a key cached or without an API key, one otherwise. */
  function GuardLog(cached: Option<string>, apiKey: string): (log: seq<Request>)
    ensures log == [] || log == [Login(apiKey)]
    ensures Truthy(cached) ==> log == []
    ensures apiKey == "" ==> log == []
  {
    if Truthy(cached) || apiKey == "" then [] else [Login(apiKey)]
  }

  /** What `ensureAuth` throws, if anything, given the login reply it would receive. */
  function GuardError(cached: Option<string>, apiKey: string, reply: LoginReply): (e: Option<Err>)
    ensures Truthy(cached) ==> e.None?
    ensures !Truthy(cached) && apiKey == "" ==> e == Some(ApiKeyNotSet)
    ensures !Truthy(cached) && apiKey != "" ==> (e.None? <==> IsOk(reply.status) && Truthy(reply.sessionKey))
  {
    if Truthy(cached) then None
    else if apiKey == "" then Some(ApiKeyNotSet)
    else if !IsOk(reply.status) then Some(AuthFailed(reply.status))
    else if !Truthy(reply.sessionKey) then Some(NoSessionKey)
    else None
  }

  /** The session key after `ensureAuth`: replaced only by the key of a successful login. */
  function GuardKey(cached: Option<string>, apiKey: string, reply: LoginReply): (key: Option<string>)
    ensures Truthy(cached) ==> key == cached
    ensures key != cached ==>
      key == reply.sessionKey && GuardLog(cached, apiKey) == [Login(apiKey)] && IsOk(reply.status)
    ensures GuardError(cached, apiKey, reply).Some? ==> key == cached
  {
    if !Truthy(cached) && GuardError(cached, apiKey, reply).None? then reply.sessionKey else cached
  }

  /** The guard lets a call through exactly when it leaves a usable key behind. */
  lemma GuardPassesIffKeySet(cached: Option<string>, apiKey: string, reply: LoginReply)
    ensures GuardError(cached, apiKey, reply).None? <==> Truthy(GuardKey(cached, apiKey, reply))
  {
  }

  /** Once a key is set, later guards send nothing, throw nothing and keep it. */
  lemma GuardNeverReauthenticates(cached: Option<string>, apiKey: string, first: LoginReply, later: LoginReply)
    requires GuardError(cached, apiKey, first).None?
    ensures var key := GuardKey(cached, apiKey, first);
      GuardLog(key, apiKey) == [] && GuardError(key, apiKey, later).None? && GuardKey(key, apiKey, later) == key
  {
  }

  // ---------------------------------------------------------------- request bodies

  /**
   * The body `fitTransformSplit` posts: `label`, `tag` and `description` only
   * when given, the option strings as `null` when not given, `randomSeed`
   * only for a seed other than 42, `identnaParams` only when some identna
   * field is given.
   */
  function TsFitBody(data: Frame, mapLabel: Option<string>, tag: Option<string>, description: Option<string>,
                     seed: Option<int>, weight: Option<string>, typ: Option<string>,
                     resolution: Option<real>, radius: Option<real>): (b: FitBody)
    ensures b.data == data
    ensures b.mapLabel.Absent? <==> mapLabel.None?
    ensures mapLabel.Some? ==> b.mapLabel == Val(mapLabel.value)
    ensures b.tag.Absent? <==> tag.None?
    ensures tag.Some? ==> b.tag == Val(tag.value)
    ensures b.description.Absent? <==> description.None?
    ensures description.Some? ==> b.description == Val(description.value)
    ensures b.weightOption.Null? <==> weight.None?
    ensures weight.Some? ==> b.weightOption == Val(weight.value)
    ensures b.typeOption.Null? <==> typ.None?
    ensures typ.Some? ==> b.typeOption == Val(typ.value)
    ensures b.randomSeed.Val? <==> seed.Some? && seed.value != 42
    ensures b.randomSeed.Val? ==> b.randomSeed.value == seed.value
    ensures !b.randomSeed.Null?
    ensures b.identnaParams.Val? <==> resolution.Some? || radius.Some?
    ensures b.identnaParams.Val? ==> b.identnaParams.value == Identna(resolution, radius)
    ensures !b.identnaParams.Null?
  {
    FitBody(data,
      if mapLabel.Some? then Val(mapLabel.value) else Absent,
      if tag.Some? then Val(tag.value) else Absent,
      if description.Some? then Val(description.value) else Absent,
      if weight.Some? then Val(weight.value) else Null,
      if typ.Some? then Val(typ.value) else Null,
      if seed.Some? && seed.value != 42 then Val(seed.value) else Absent,
      if resolution.Some? || radius.Some? then Val(Identna(resolution, radius)) else Absent)
  }

  /** An optional number or flag of a body: sent when given, left out otherwise. */
  function IfGiven<T>(x: Option<T>): (f: Field<T>)
    ensures f.Absent? <==> x.None?
    ensures x.Some? ==> f == Val(x.value)
  {
    if x.Some? then Val(x.value) else Absent
  }

  /** The body `addplotSplit` posts once it has a map number. */
  function TsAddplotBody(data: Frame, mapNo: int, weight: Option<string>, typ: Option<string>,
                         maxWindow: Option<real>, rateThreshold: Option<real>, threshold: Option<real>, printScore: Option<bool>): (b: AddplotBody)
    ensures b.data == data && b.mapNo == Num(mapNo)
    ensures b.weightOption.Null? <==> weight.None?
    ensures weight.Some? ==> b.weightOption == Val(weight.value)
    ensures b.typeOption.Null? <==> typ.None?
    ensures typ.Some? ==> b.typeOption == Val(typ.value)
    ensures b.detabnMaxWindow == IfGiven(maxWindow) && b.detabnRateThreshold == IfGiven(rateThreshold)
    ensures b.detabnThreshold == IfGiven(threshold) && b.detabnPrintScore == IfGiven(printScore)
  {
    AddplotBody(data, Num(mapNo),
      if weight.Some? then Val(weight.value) else Null,
      if typ.Some? then Val(typ.value) else Null,
      IfGiven(maxWindow), IfGiven(rateThreshold), IfGiven(threshold), IfGiven(printScore))
  }

  /** The conditional field writes of `addplotSplit` that complete its body. */
  method BuildAddplotBody(data: Frame, mapNo: int, weight: Option<string>, typ: Option<string>,
                          maxWindow: Option<real>, rateThreshold: Option<real>, threshold: Option<real>, printScore: Option<bool>)
    returns (body: AddplotBody)
    ensures body == TsAddplotBody(data, mapNo, weight, typ, maxWindow, rateThreshold, threshold, printScore)
  {
    body := AddplotBody(data, Num(mapNo),
      if weight.Some? then Val(weight.value) else Null,
      if typ.Some? then Val(typ.value) else Null,
      Absent, Absent, Absent, Absent);
    if maxWindow.Some? {
      body := body.(detabnMaxWindow := Val(maxWindow.value));
    }
    if rateThreshold.Some? {
      body := body.(detabnRateThreshold := Val(rateThreshold.value));
    }
    if threshold.Some? {
      body := body.(detabnThreshold := Val(threshold.value));
    }
    if printScore.Some? {
      body := body.(detabnPrintScore := Val(printScore.value));
    }
  }

  // ---------------------------------------------------------------- map-number rules

  /** `addplotSplit`: a truthy explicit number, else a truthy cached one, else none. */
  function SplitMapNo(explicit: Option<int>, cached: Option<int>): (r: Option<int>)
    ensures NumTruthy(explicit) ==> r == explicit
    ensures !NumTruthy(explicit) ==> r == (if NumTruthy(cached) then cached else None)
    ensures r.None? || NumTruthy(r)
  {
    if NumTruthy(cached) && !NumTruthy(explicit) then cached
    else if NumTruthy(explicit) then explicit
    else None
  }

  /** `addplotWaveform`: an explicit number if given (0 included), else the cached one; none unless truthy. */
  function WaveformMapNo(explicit: Option<int>, cached: Option<int>): (r: Option<int>)
    ensures explicit.Some? ==> r == (if explicit.value != 0 then explicit else None)
    ensures explicit.None? ==> r == (if NumTruthy(cached) then cached else None)
  {
    var target := if explicit.Some? then explicit else cached;
    if NumTruthy(target) then target else None
  }

  /** The two rules agree except on an explicit 0, which only the waveform rule refuses when a map is cached. */
  lemma MapNoRulesAgreeUnlessZero(explicit: Option<int>, cached: Option<int>)
    ensures explicit != Some(0) ==> SplitMapNo(explicit, cached) == WaveformMapNo(explicit, cached)
    ensures explicit == Some(0) ==> WaveformMapNo(explicit, cached).None? && SplitMapNo(explicit, cached) == WaveformMapNo(None, cached)
  {
  }

  // ---------------------------------------------------------------- file loops

  /** `path.basename` of a path without a trailing '/': what follows the last '/'. */
  function Basename(p: Path): (name: string)
    ensures '/' !in name && EndsWith(p, name)
  {
    p[LastIndexOf(p, '/') + 1..]
  }

  /** The base name is all that follows the last '/': the whole path, or a suffix right after a '/'. */
  lemma BasenameFollowsLastSlash(p: Path)
    ensures var name := Basename(p); |name| == |p| || p[|p| - |name| - 1] == '/'
  {
  }

  /**
   * The loop that attaches the input files of a waveform request: a path
   * that does not exist, or is not a readable regular file, stops it.
   */
  function Attachments(fs: Fs, files: seq<Path>): Result<seq<Upload>, Err>
    decreases |files|
  {
    if |files| == 0 then Success([])
    else
      match Attachments(fs, files[..|files| - 1])
      case Failure(e) => Failure(e)
      case Success(ups) =>
        var p := files[|files| - 1];
        if p !in fs.tree then Failure(FileNotFound(p))
        else if fs.tree[p].Dir? then Failure(ReadFailed(p))
        else Success(ups + [Upload(Basename(p), fs.tree[p].content)])
  }

  /** The attachment loop succeeds exactly when every path is a regular file. */
  lemma {:induction false} AttachmentsSucceedIffFiles(fs: Fs, files: seq<Path>)
    ensures Attachments(fs, files).Success? <==> forall i :: 0 <= i < |files| ==> IsFile(fs, files[i])
    decreases |files|
  {
    if |files| > 0 {
      var init, last := files[..|files| - 1], files[|files| - 1];
      AttachmentsSucceedIffFiles(fs, init);
      AttachmentsStep(fs, files);
      assert files == init + [last];
      AllFilesStep(fs, init, last);
    }
  }

  /** One more path: the loop still succeeds exactly when it is a regular file. */
  lemma AttachmentsStep(fs: Fs, files: seq<Path>)
    requires |files| > 0
    ensures Attachments(fs, files).Success? <==> Attachments(fs, files[..|files| - 1]).Success? && IsFile(fs, files[|files| - 1])
    ensures Attachments(fs, files).Success? ==>
      Attachments(fs, files).value
      == Attachments(fs, files[..|files| - 1]).value + [Upload(Basename(files[|files| - 1]), fs.tree[files[|files| - 1]].content)]
  {
  }

  lemma AllFilesStep(fs: Fs, init: seq<Path>, last: Path)
    ensures (forall i :: 0 <= i < |init + [last]| ==> IsFile(fs, (init + [last])[i]))
      <==> (forall i :: 0 <= i < |init| ==> IsFile(fs, init[i])) && IsFile(fs, last)
  {
    assert forall i :: 0 <= i < |init| ==> (init + [last])[i] == init[i];
    assert (init + [last])[|init|] == last;
  }

  /** A successful attachment loop uploads every file, in order, under its base name with its bytes. */
  lemma {:induction false} AttachmentsUploadEveryFile(fs: Fs, files: seq<Path>)
    requires Attachments(fs, files).Success?
    ensures var ups := Attachments(fs, files).value;
      |ups| == |files|
      && forall i :: 0 <= i < |files| ==> IsFile(fs, files[i]) && ups[i] == Upload(Basename(files[i]), fs.tree[files[i]].content)
    decreases |files|
  {
    if |files| > 0 {
      var init, last := files[..|files| - 1], files[|files| - 1];
      AttachmentsStep(fs, files);
      AttachmentsUploadEveryFile(fs, init);
      var prev, ups := Attachments(fs, init).value, Attachments(fs, files).value;
      forall i | 0 <= i < |files|
        ensures IsFile(fs, files[i]) && ups[i] == Upload(Basename(files[i]), fs.tree[files[i]].content)
      {
        if i < |init| {
          assert files[i] == init[i] && ups[i] == prev[i];
        }
      }
    }
  }

  /** A failed attachment loop names the first path that is not a regular file: missing, or unreadable. */
  lemma {:induction false} AttachmentsStopAtFirstBadPath(fs: Fs, files: seq<Path>)
    requires Attachments(fs, files).Failure?
    ensures exists k ::
      && 0 <= k < |files| && !IsFile(fs, files[k]) && (forall i :: 0 <= i < k ==> IsFile(fs, files[i]))
      && Attachments(fs, files).error == (if files[k] in fs.tree then ReadFailed(files[k]) else FileNotFound(files[k]))
    decreases |files|
  {
    var init := files[..|files| - 1];
    assert forall i :: 0 <= i < |init| ==> init[i] == files[i];
    if Attachments(fs, init).Failure? {
      AttachmentsStopAtFirstBadPath(fs, init);
    } else {
      AttachmentsSucceedIffFiles(fs, init);
      assert !IsFile(fs, files[|files| - 1]);
    }
  }

  /** The `for (const filePath of files)` loop of the waveform methods. */
  method AttachFiles(fs: Fs, files: seq<Path>) returns (r: Result<seq<Upload>, Err>)
    ensures r == Attachments(fs, files)
  {
    var ups: seq<Upload> := [];
    var i := 0;
    while i < |files|
      invariant 0 <= i <= |files|
      invariant Attachments(fs, files[..i]) == Success(ups)
    {
      assert files[..i + 1][..i] == files[..i];
      var p := files[i];
      if p !in fs.tree {
        assert files[..i + 1] == files[..i + 1];
        AttachmentsFailureSticks(fs, files, i + 1);
        return Failure(FileNotFound(p));
      }
      if fs.tree[p].Dir? {
        AttachmentsFailureSticks(fs, files, i + 1);
        return Failure(ReadFailed(p));
      }
      ups := ups + [Upload(Basename(p), fs.tree[p].content)];
      i := i + 1;
    }
    assert files[..|files|] == files;
    return Success(ups);
  }

  /** Once the loop has failed on a prefix, it fails the same way on the whole list. */
  lemma {:induction false} AttachmentsFailureSticks(fs: Fs, files: seq<Path>, n: nat)
    requires n <= |files| && Attachments(fs, files[..n]).Failure?
    ensures Attachments(fs, files) == Attachments(fs, files[..n])
    decreases |files| - n
  {
    if n < |files| {
      assert files[..n + 1][..n] == files[..n];
      AttachmentsFailureSticks(fs, files, n + 1);
    } else {
      assert files[..n] == files;
    }
  }

  /** The `importMap` loop: the listed regular files whose names are not excluded, as base64. */
  method CollectMapData(fs: Fs, dir: Path, listing: seq<string>) returns (data: map<string, string>)
    ensures forall n :: n in data <==> n in listing && !Excluded(n) && IsFile(fs, Join(dir, n))
    ensures forall n :: n in data ==> IsFile(fs, Join(dir, n)) && data[n] == Base64.Encode(fs.tree[Join(dir, n)].content)
  {
    data := map[];
    var i := 0;
    while i < |listing|
      invariant 0 <= i <= |listing|
      invariant forall n :: n in data <==> n in listing[..i] && !Excluded(n) && IsFile(fs, Join(dir, n))
      invariant forall n :: n in data ==> IsFile(fs, Join(dir, n)) && data[n] == Base64.Encode(fs.tree[Join(dir, n)].content)
    {
      assert listing[..i + 1] == listing[..i] + [listing[i]];
      var name := listing[i];
      if !(StartsWith(name, "segments-add-") || StartsWith(name, "xy-add-") || StartsWith(name, "rawdata_add_") || EndsWith(name, ".log")) {
        var p := Join(dir, name);
        if IsFile(fs, p) {
          data := data[name := Base64.Encode(fs.tree[p].content)];
        }
      }
      i := i + 1;
    }
    assert listing[..|listing|] == listing;
  }

  /** The `exportMap` loop: write entries in order; the first write that throws ends it. */
  method SaveEntries(fs: Fs, dir: Path, entries: seq<(string, string)>, decode: string -> seq<byte>) returns (r: Saved)
    ensures r == TsExportFiles(fs, dir, entries, decode)
  {
    var current := fs;
    var i := 0;
    while i < |entries|
      invariant 0 <= i <= |entries|
      invariant TsExportFiles(fs, dir, entries[..i], decode) == AllSaved(current)
    {
      assert entries[..i + 1][..i] == entries[..i];
      var (name, b64) := entries[i];
      var written := WriteFile(current, Join(dir, name), Utf8.Encode(Utf8.DecodeLossy(decode(b64))));
      if written.None? {
        SavedStopSticks(fs, dir, entries, decode, i + 1);
        return StoppedAt(name, current);
      }
      current := written.value;
      i := i + 1;
    }
    assert entries[..|entries|] == entries;
    return AllSaved(current);
  }

  /** Once the download has stopped on a prefix, it stops the same way on the whole list. */
  lemma {:induction false} SavedStopSticks(fs: Fs, dir: Path, entries: seq<(string, string)>, decode: string -> seq<byte>, n: nat)
    requires n <= |entries| && TsExportFiles(fs, dir, entries[..n], decode).StoppedAt?
    ensures TsExportFiles(fs, dir, entries, decode) == TsExportFiles(fs, dir, entries[..n], decode)
    decreases |entries| - n
  {
    if n < |entries| {
      assert entries[..n + 1][..n] == entries[..n];
      SavedStopSticks(fs, dir, entries, decode, n + 1);
    } else {
      assert entries[..n] == entries;
    }
  }

  /**
   * The export directory before the loop: an existing path is used as it
   * is; a missing one is created with its ancestors, and a failure keeps
   * the ancestors created before it.
   */
  function PrepareDir(fs: Fs, dir: Path): (r: Made)
    ensures dir in fs.tree ==> r == Made(fs, true)
    ensures dir !in fs.tree ==> r == MakeDirs(fs, dir)
    ensures r.ok ==> dir in r.fs.tree
    ensures forall q :: q in fs.tree ==> q in r.fs.tree && r.fs.tree[q] == fs.tree[q]
  {
    if dir in fs.tree then Made(fs, true) else MakeDirs(fs, dir)
  }

  // ---------------------------------------------------------------- results

  datatype FitResult = FitResult(xyData: Xy, mapNo: Option<int>, shareUrl: Option<string>)

  datatype AddplotResult = AddplotResult(
    xyData: Xy,
    addPlotNo: Option<int>,
    abnormalityStatus: Option<string>,
    abnormalityScore: Option<real>,
    shareUrl: Option<string>)

  datatype ExportResult = ExportResult(mapData: seq<(string, string)>, shareUrl: Option<string>, exportPath: Path)

  function FitOf(reply: FitReply): FitResult {
    FitResult(reply.xyData, reply.mapNo, reply.shareUrl)
  }

  function AddplotOf(reply: AddplotReply): AddplotResult {
    AddplotResult(reply.xyData, reply.addPlotNo, reply.abnormalityStatus, reply.abnormalityScore, reply.shareUrl)
  }

  /** The map number of an import reply: `undefined` and `null` both come back as no number. */
  function NumberOf(f: Field<int>): (r: Option<int>)
    ensures r.Some? <==> f.Val?
    ensures f.Val? ==> r.value == f.value
  {
    if f.Val? then Some(f.value) else None
  }

  // ---------------------------------------------------------------- the client

  class Client {
    var apiKey: string
    var sessionKey: Option<string>
    var mapNo: Option<int>
    var shareUrl: Option<string>
    var currentAddPlotNo: Option<int>
    /** Every request sent so far, oldest first. */
    var sent: seq<Request>

    /** Both copies of the class start without a session; the API key comes from the environment or the caller. */
    constructor(apiKey: string)
      ensures this.apiKey == apiKey && sessionKey == None && mapNo == None
      ensures shareUrl == None && currentAddPlotNo == None && sent == []
    {
      this.apiKey := apiKey;
      sessionKey := None;
      mapNo := None;
      shareUrl := None;
      currentAddPlotNo := None;
      sent := [];
    }

    /** `ensureAuth`: log in only without a cached key; throw on a missing API key, a failed login or a reply without a key. */
    method EnsureAuth(server: Server) returns (err: Option<Err>)
      modifies this`sent, this`sessionKey
      ensures sent == old(sent) + GuardLog(old(sessionKey), apiKey)
      ensures err == GuardError(old(sessionKey), apiKey, server.login(apiKey))
      ensures sessionKey == GuardKey(old(sessionKey), apiKey, server.login(apiKey))
      ensures err.None? <==> Truthy(sessionKey)
    {
      if Truthy(sessionKey) {
        return None;
      }
      if apiKey == "" {
        return Some(ApiKeyNotSet);
      }
      sent := sent + [Login(apiKey)];
      var reply := server.login(apiKey);
      if !IsOk(reply.status) {
        return Some(AuthFailed(reply.status));
      }
      if !Truthy(reply.sessionKey) {
        return Some(NoSessionKey);
      }
      sessionKey := reply.sessionKey;
      return None;
    }

    /** `headersJSON`: the session key to send, or `NotAuthenticated` without one. */
    function HeadersJSON(): (r: Result<string, Err>)
      reads this
      ensures r.Success? <==> Truthy(sessionKey)
      ensures r.Success? ==> Some(r.value) == sessionKey
      ensures r.Failure? ==> r.error == NotAuthenticated
    {
      if Truthy(sessionKey) then Success(sessionKey.value) else Failure(NotAuthenticated)
    }

    /** `fitTransformSplit`: post the table; an ok reply sets the map number and share URL. */
    method FitTransformSplit(data: Frame, mapLabel: Option<string>, tag: Option<string>, description: Option<string>,
                             seed: Option<int>, weight: Option<string>, typ: Option<string>,
                             resolution: Option<real>, radius: Option<real>, server: Server)
      returns (r: Result<FitResult, Err>)
      modifies this`sent, this`sessionKey, this`mapNo, this`shareUrl
      ensures sessionKey == GuardKey(old(sessionKey), apiKey, server.login(apiKey))
      ensures GuardError(old(sessionKey), apiKey, server.login(apiKey)).Some? ==>
        r == Failure(GuardError(old(sessionKey), apiKey, server.login(apiKey)).value)
        && sent == old(sent) + GuardLog(old(sessionKey), apiKey) && mapNo == old(mapNo) && shareUrl == old(shareUrl)
      ensures GuardError(old(sessionKey), apiKey, server.login(apiKey)).None? ==>
        var body := TsFitBody(data, mapLabel, tag, description, seed, weight, typ, resolution, radius);
        var reply := server.fitTransform(sessionKey.value, body);
        sent == old(sent) + GuardLog(old(sessionKey), apiKey) + [Request.FitTransform(sessionKey.value, body)]
        && (IsOk(reply.status) ==> r == Success(FitOf(reply)) && mapNo == reply.mapNo && shareUrl == reply.shareUrl)
        && (!IsOk(reply.status) ==>
              r == Failure(RequestFailed("fit_transform", reply.status)) && mapNo == old(mapNo) && shareUrl == old(shareUrl))
    {
      var err := EnsureAuth(server);
      if err.Some? {
        return Failure(err.value);
      }
      var body := FitBody(data,
        IfGiven(mapLabel), IfGiven(tag), IfGiven(description),
        if weight.Some? then Val(weight.value) else Null,
        if typ.Some? then Val(typ.value) else Null,
        Absent, Absent);
      if seed.Some? && seed.value != 42 {
        body := body.(randomSeed := Val(seed.value));
      }
      var identna := Identna(None, None);
      if resolution.Some? {
        identna := identna.(resolution := resolution);
      }
      if radius.Some? {
        identna := identna.(effectiveRadius := radius);
      }
      if identna.resolution.Some? || identna.effectiveRadius.Some? {
        body := body.(identnaParams := Val(identna));
      }
      assert body == TsFitBody(data, mapLabel, tag, description, seed, weight, typ, resolution, radius);
      var key := HeadersJSON().value;
      sent := sent + [Request.FitTransform(key, body)];
      var reply := server.fitTransform(key, body);
      if !IsOk(reply.status) {
        return Failure(RequestFailed("fit_transform", reply.status));
      }
      mapNo := reply.mapNo;
      shareUrl := reply.shareUrl;
      return Success(FitOf(reply));
    }

    /** `addplotSplit`: resolve the map number (explicit, then cached) before any request to the endpoint. */
    method AddplotSplit(data: Frame, explicit: Option<int>, weight: Option<string>, typ: Option<string>,
                        maxWindow: Option<real>, rateThreshold: Option<real>, threshold: Option<real>, printScore: Option<bool>,
                        server: Server)
      returns (r: Result<AddplotResult, Err>)
      modifies this`sent, this`sessionKey, this`shareUrl, this`currentAddPlotNo
      ensures sessionKey == GuardKey(old(sessionKey), apiKey, server.login(apiKey))
      ensures GuardError(old(sessionKey), apiKey, server.login(apiKey)).Some? ==>
        r == Failure(GuardError(old(sessionKey), apiKey, server.login(apiKey)).value)
        && sent == old(sent) + GuardLog(old(sessionKey), apiKey)
        && shareUrl == old(shareUrl) && currentAddPlotNo == old(currentAddPlotNo)
      ensures GuardError(old(sessionKey), apiKey, server.login(apiKey)).None? && SplitMapNo(explicit, mapNo).None? ==>
        r == Failure(MapNoRequired) && sent == old(sent) + GuardLog(old(sessionKey), apiKey)
        && shareUrl == old(shareUrl) && currentAddPlotNo == old(currentAddPlotNo)
      ensures GuardError(old(sessionKey), apiKey, server.login(apiKey)).None? && SplitMapNo(explicit, mapNo).Some? ==>
        var body := TsAddplotBody(data, SplitMapNo(explicit, mapNo).value, weight, typ, maxWindow, rateThreshold, threshold, printScore);
        var reply := server.addplot(sessionKey.value, body);
        sent == old(sent) + GuardLog(old(sessionKey), apiKey) + [Request.Addplot(sessionKey.value, body)]
        && (IsOk(reply.status) ==>
              r == Success(AddplotOf(reply)) && currentAddPlotNo == reply.addPlotNo && shareUrl == reply.shareUrl)
        && (!IsOk(reply.status) ==>
              r == Failure(RequestFailed("addplot", reply.status))
              && shareUrl == old(shareUrl) && currentAddPlotNo == old(currentAddPlotNo))
    {
      var err := EnsureAuth(server);
      if err.Some? {
        return Failure(err.value);
      }
      var target: Option<int> := None;
      if NumTruthy(mapNo) && !NumTruthy(explicit) {
        target := mapNo;
      } else if NumTruthy(explicit) {
        target := explicit;
      }
      if !NumTruthy(target) {
        return Failure(MapNoRequired);
      }
      assert target == SplitMapNo(explicit, mapNo);
      var body := BuildAddplotBody(data, target.value, weight, typ, maxWindow, rateThreshold, threshold, printScore);
      var key := HeadersJSON().value;
      sent := sent + [Request.Addplot(key, body)];
      var reply := server.addplot(key, body);
      if !IsOk(reply.status) {
        return Failure(RequestFailed("addplot", reply.status));
      }
      currentAddPlotNo := reply.addPlotNo;
      shareUrl := reply.shareUrl;
      return Success(AddplotOf(reply));
    }

    /**
     * The read-only calls `listMap`, `listAddplots`, `getAddplot` and
     * `getAddplotFeatures`: one GET each; only `getAddplot` records the share URL.
     */
    method Query(q: Query, server: Server) returns (r: Result<string, Err>)
      modifies this`sent, this`sessionKey, this`shareUrl
      ensures sessionKey == GuardKey(old(sessionKey), apiKey, server.login(apiKey))
      ensures GuardError(old(sessionKey), apiKey, server.login(apiKey)).Some? ==>
        r == Failure(GuardError(old(sessionKey), apiKey, server.login(apiKey)).value)
        && sent == old(sent) + GuardLog(old(sessionKey), apiKey) && shareUrl == old(shareUrl)
      ensures GuardError(old(sessionKey), apiKey, server.login(apiKey)).None? ==>
        var reply := server.get(sessionKey.value, q);
        sent == old(sent) + GuardLog(old(sessionKey), apiKey) + [Get(sessionKey.value, q)]
        && (IsOk(reply.status) ==> r == Success(reply.body))
        && (!IsOk(reply.status) ==> r == Failure(RequestFailed(QueryName(q), reply.status)))
        && shareUrl == (if IsOk(reply.status) && q.GetAddplot? then reply.shareUrl else old(shareUrl))
    {
      var err := EnsureAuth(server);
      if err.Some? {
        return Failure(err.value);
      }
      var key := HeadersJSON().value;
      sent := sent + [Get(key, q)];
      var reply := server.get(key, q);
      if !IsOk(reply.status) {
        return Failure(RequestFailed(QueryName(q), reply.status));
      }
      if q.GetAddplot? {
        shareUrl := reply.shareUrl;
      }
      return Success(reply.body);
    }

    /** `fitTransformWaveform`: attach every file (the first missing one aborts), then post. */
    method FitTransformWaveform(files: seq<Path>, fs: Fs, server: Server) returns (r: Result<FitResult, Err>)
      modifies this`sent, this`sessionKey, this`mapNo, this`shareUrl
      ensures sessionKey == GuardKey(old(sessionKey), apiKey, server.login(apiKey))
      ensures GuardError(old(sessionKey), apiKey, server.login(apiKey)).Some? ==>
        r == Failure(GuardError(old(sessionKey), apiKey, server.login(apiKey)).value)
        && sent == old(sent) + GuardLog(old(sessionKey), apiKey) && mapNo == old(mapNo) && shareUrl == old(shareUrl)
      ensures GuardError(old(sessionKey), apiKey, server.login(apiKey)).None? && Attachments(fs, files).Failure? ==>
        r == Failure(Attachments(fs, files).error)
        && sent == old(sent) + GuardLog(old(sessionKey), apiKey) && mapNo == old(mapNo) && shareUrl == old(shareUrl)
      ensures GuardError(old(sessionKey), apiKey, server.login(apiKey)).None? && Attachments(fs, files).Success? ==>
        var ups := Attachments(fs, files).value;
        var reply := server.fitWaveform(sessionKey.value, ups);
        sent == old(sent) + GuardLog(old(sessionKey), apiKey) + [Request.FitTransformWaveform(sessionKey.value, ups)]
        && (IsOk(reply.status) ==> r == Success(FitOf(reply)) && mapNo == reply.mapNo && shareUrl == reply.shareUrl)
        && (!IsOk(reply.status) ==>
              r == Failure(RequestFailed("fit_transform_waveform", reply.status)) && mapNo == old(mapNo) && shareUrl == old(shareUrl))
    {
      var err := EnsureAuth(server);
      if err.Some? {
        return Failure(err.value);
      }
      var attached := AttachFiles(fs, files);
      if attached.Failure? {
        return Failure(attached.error);
      }
      var key := sessionKey.value;
      sent := sent + [Request.FitTransformWaveform(key, attached.value)];
      var reply := server.fitWaveform(key, attached.value);
      if !IsOk(reply.status) {
        return Failure(RequestFailed("fit_transform_waveform", reply.status));
      }
      mapNo := reply.mapNo;
      shareUrl := reply.shareUrl;
      return Success(FitOf(reply));
    }

    /** `addplotWaveform`: resolve the map number, then attach every file, then post. */
    method AddplotWaveform(files: seq<Path>, explicit: Option<int>, fs: Fs, server: Server) returns (r: Result<AddplotResult, Err>)
      modifies this`sent, this`sessionKey, this`shareUrl, this`currentAddPlotNo
      ensures sessionKey == GuardKey(old(sessionKey), apiKey, server.login(apiKey))
      ensures GuardError(old(sessionKey), apiKey, server.login(apiKey)).Some? ==>
        r == Failure(GuardError(old(sessionKey), apiKey, server.login(apiKey)).value)
        && sent == old(sent) + GuardLog(old(sessionKey), apiKey)
        && shareUrl == old(shareUrl) && currentAddPlotNo == old(currentAddPlotNo)
      ensures (GuardError(old(sessionKey), apiKey, server.login(apiKey)).None?
               && (WaveformMapNo(explicit, mapNo).None? || Attachments(fs, files).Failure?)) ==>
        r == Failure(if WaveformMapNo(explicit, mapNo).None? then MapNoRequired else Attachments(fs, files).error)
        && sent == old(sent) + GuardLog(old(sessionKey), apiKey)
        && shareUrl == old(shareUrl) && currentAddPlotNo == old(currentAddPlotNo)
      ensures (GuardError(old(sessionKey), apiKey, server.login(apiKey)).None?
               && WaveformMapNo(explicit, mapNo).Some? && Attachments(fs, files).Success?) ==>
        var target := WaveformMapNo(explicit, mapNo).value;
        var ups := Attachments(fs, files).value;
        var reply := server.addplotWaveform(sessionKey.value, target, ups);
        sent == old(sent) + GuardLog(old(sessionKey), apiKey) + [Request.AddplotWaveform(sessionKey.value, target, ups)]
        && (IsOk(reply.status) ==>
              r == Success(AddplotOf(reply)) && currentAddPlotNo == reply.addPlotNo && shareUrl == reply.shareUrl)
        && (!IsOk(reply.status) ==>
              r == Failure(RequestFailed("addplot_waveform", reply.status))
              && shareUrl == old(shareUrl) && currentAddPlotNo == old(currentAddPlotNo))
    {
      var err := EnsureAuth(server);
      if err.Some? {
        return Failure(err.value);
      }
      var target := if explicit.Some? then explicit else mapNo;
      if !NumTruthy(target) {
        return Failure(MapNoRequired);
      }
      var attached := AttachFiles(fs, files);
      if attached.Failure? {
        return Failure(attached.error);
      }
      var key := sessionKey.value;
      sent := sent + [Request.AddplotWaveform(key, target.value, attached.value)];
      var reply := server.addplotWaveform(key, target.value, attached.value);
      if !IsOk(reply.status) {
        return Failure(RequestFailed("addplot_waveform", reply.status));
      }
      currentAddPlotNo := reply.addPlotNo;
      shareUrl := reply.shareUrl;
      return Success(AddplotOf(reply));
    }

    /**
     * `exportMap`: on an ok reply, record the share URL, create the
     * directory if missing, and write the entries until one fails.
     */
    method ExportMap(mapNo: int, dir: Path, fs: Fs, server: Server, decode: string -> seq<byte>)
      returns (r: Result<ExportResult, Err>, after: Fs)
      modifies this`sent, this`sessionKey, this`shareUrl
      ensures sessionKey == GuardKey(old(sessionKey), apiKey, server.login(apiKey))
      ensures GuardError(old(sessionKey), apiKey, server.login(apiKey)).Some? ==>
        r == Failure(GuardError(old(sessionKey), apiKey, server.login(apiKey)).value)
        && after == fs && sent == old(sent) + GuardLog(old(sessionKey), apiKey) && shareUrl == old(shareUrl)
      ensures GuardError(old(sessionKey), apiKey, server.login(apiKey)).None? ==>
        var reply := server.exportMap(sessionKey.value, mapNo);
        var entries := if reply.mapData.Val? then reply.mapData.value else [];
        sent == old(sent) + GuardLog(old(sessionKey), apiKey) + [Request.ExportMap(sessionKey.value, mapNo)]
        && (!IsOk(reply.status) ==>
              r == Failure(RequestFailed("export_map", reply.status)) && after == fs && shareUrl == old(shareUrl))
        && (IsOk(reply.status) ==> shareUrl == reply.shareUrl)
        && (IsOk(reply.status) && !PrepareDir(fs, dir).ok ==> r == Failure(MkdirFailed(dir)) && after == PrepareDir(fs, dir).fs)
        && (IsOk(reply.status) && PrepareDir(fs, dir).ok ==>
              var saved := TsExportFiles(PrepareDir(fs, dir).fs, dir, entries, decode);
              after == saved.fs
              && r == (if saved.AllSaved? then Success(ExportResult(entries, reply.shareUrl, dir)) else Failure(SaveFailed(saved.name))))
    {
      after := fs;
      var err := EnsureAuth(server);
      if err.Some? {
        return Failure(err.value), after;
      }
      var key := sessionKey.value;
      sent := sent + [Request.ExportMap(key, mapNo)];
      var reply := server.exportMap(key, mapNo);
      if !IsOk(reply.status) {
        return Failure(RequestFailed("export_map", reply.status)), after;
      }
      var entries := if reply.mapData.Val? then reply.mapData.value else [];
      shareUrl := reply.shareUrl;
      if dir !in fs.tree {
        var made := MakeDirs(fs, dir);
        after := made.fs;
        if !made.ok {
          return Failure(MkdirFailed(dir)), after;
        }
      }
      var saved := SaveEntries(after, dir, entries, decode);
      after := saved.fs;
      if saved.StoppedAt? {
        return Failure(SaveFailed(saved.name)), after;
      }
      return Success(ExportResult(entries, shareUrl, dir)), after;
    }

    /** `importMap`: a missing directory throws before any upload; otherwise the filtered files are always uploaded. */
    method ImportMap(dir: Path, fs: Fs, server: Server) returns (r: Result<Option<int>, Err>)
      modifies this`sent, this`sessionKey, this`shareUrl
      ensures sessionKey == GuardKey(old(sessionKey), apiKey, server.login(apiKey))
      ensures GuardError(old(sessionKey), apiKey, server.login(apiKey)).Some? ==>
        r == Failure(GuardError(old(sessionKey), apiKey, server.login(apiKey)).value)
        && sent == old(sent) + GuardLog(old(sessionKey), apiKey) && shareUrl == old(shareUrl)
      ensures GuardError(old(sessionKey), apiKey, server.login(apiKey)).None? && !IsDir(fs, dir) ==>
        r == Failure(if dir in fs.tree then ListDirFailed(dir) else DirectoryNotFound(dir))
        && sent == old(sent) + GuardLog(old(sessionKey), apiKey) && shareUrl == old(shareUrl)
      ensures GuardError(old(sessionKey), apiKey, server.login(apiKey)).None? && IsDir(fs, dir) ==>
        var data := TsMapData(fs, dir);
        var reply := server.importMap(sessionKey.value, data);
        sent == old(sent) + GuardLog(old(sessionKey), apiKey) + [Request.ImportMap(sessionKey.value, data)]
        && (IsOk(reply.status) ==> r == Success(NumberOf(reply.mapNo)) && shareUrl == reply.shareUrl)
        && (!IsOk(reply.status) ==> r == Failure(RequestFailed("import_map", reply.status)) && shareUrl == old(shareUrl))
    {
      var err := EnsureAuth(server);
      if err.Some? {
        return Failure(err.value);
      }
      if dir !in fs.tree {
        return Failure(DirectoryNotFound(dir));
      }
      var names := ListDir(fs, dir);
      if names.None? {
        return Failure(ListDirFailed(dir));
      }
      var listing := Enumerate(names.value);
      var data := CollectMapData(fs, dir, listing);
      assert data.Keys == TsMapData(fs, dir).Keys;
      assert forall n :: n in data ==> data[n] == TsMapData(fs, dir)[n];
      assert data == TsMapData(fs, dir);
      var key := HeadersJSON().value;
      sent := sent + [Request.ImportMap(key, data)];
      var reply := server.importMap(key, data);
      if !IsOk(reply.status) {
        return Failure(RequestFailed("import_map", reply.status));
      }
      shareUrl := reply.shareUrl;
      return Success(NumberOf(reply.mapNo));
    }
  }

  /** The endpoint name in the error message of a read-only call. */
  function QueryName(q: Query): string {
    match q
    case ListMaps => "list_map"
    case ListAddplots(_) => "list_addplots"
    case GetAddplot(_, _) => "get_addplot"
    case GetAddplotFeatures(_, _, _) => "get_addplot_features"
  }

  /** The query `getAddplotFeatures` sends: the t-score flag only when `use_tscore` is truthy. */
  function FeaturesQuery(mapNo: int, addplotNo: int, useTscore: Option<bool>): (q: Query)
    ensures q.GetAddplotFeatures? && q.mapNo == mapNo && q.addplotNo == addplotNo
    ensures q.tscore <==> useTscore == Some(true)
  {
    GetAddplotFeatures(mapNo, addplotNo, useTscore == Some(true))
  }
}
