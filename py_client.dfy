/**
 * The Python client `toorPIA`: a session guard in front of every API call,
 * the map-number precedence of `addplot`, and the snapshot synchronisation
 * of `import_map` (checksum lookup, then upload) and `export_map`.
 */
module PyClient {
  import opened Wrappers
  import opened Bytes
  import opened Text
  import opened FileSystem
  import opened Http
  import opened Snapshot
  import Base64
  import Utf8

  /** The exceptions the model lets escape a client method. */
  datatype PyError = OsError(path: Path) | KeyError(key: string) | AttributeError

  /** How a Python method call ends: a return value (`None` included) or an escaping exception. */
  datatype Outcome<T> = Returned(value: Option<T>) | Raised(error: PyError)

  // ---------------------------------------------------------------- session guard

  /** What `authenticate` returns for a login reply. */
  function LoginKey(reply: LoginReply): (key: Option<string>)
    ensures key.Some? ==> reply.status == 200 && key == reply.sessionKey
    ensures reply.status == 200 ==> key == reply.sessionKey
  {
    if reply.status == 200 then reply.sessionKey else None
  }

  /** The logins `pre_authentication` sends: none when a key is cached, one otherwise. */
  function GuardLog(cached: Option<string>, apiKey: string): (log: seq<Request>)
    ensures Truthy(cached) <==> log == []
    ensures !Truthy(cached) ==> log == [Login(apiKey)]
  {
    if Truthy(cached) then [] else [Login(apiKey)]
  }

  /** The session key after `pre_authentication`: the cached one if truthy, else what the login yields. */
  function GuardKey(cached: Option<string>, reply: LoginReply): (key: Option<string>)
    ensures Truthy(cached) ==> key == cached
    ensures !Truthy(cached) ==> key == LoginKey(reply)
  {
    if Truthy(cached) then cached else LoginKey(reply)
  }

  /** Once the guard has let a call through, later guards send no login and keep the key. */
  lemma GuardNeverReauthenticates(cached: Option<string>, apiKey: string, first: LoginReply, later: LoginReply)
    requires Truthy(GuardKey(cached, first))
    ensures GuardLog(GuardKey(cached, first), apiKey) == []
    ensures GuardKey(GuardKey(cached, first), later) == GuardKey(cached, first)
  {
  }

  /** A failed login (a non-200 status, or a 200 without `sessionKey`) leaves no usable key. */
  lemma FailedLoginLeavesNoKey(cached: Option<string>, reply: LoginReply)
    requires !Truthy(cached)
    requires reply.status != 200 || !Truthy(reply.sessionKey)
    ensures !Truthy(GuardKey(cached, reply))
  {
  }

  // ---------------------------------------------------------------- request bodies

  /** The body `fit_transform` posts: optional fields appear only when given; a seed of 42 is left out. */
  function PyFitBody(data: Frame, mapLabel: Option<string>, tag: Option<string>, description: Option<string>, seed: Option<int>): (b: FitBody)
    ensures b.data == data
    ensures b.mapLabel.Absent? <==> mapLabel.None?
    ensures mapLabel.Some? ==> b.mapLabel == Val(mapLabel.value)
    ensures b.tag.Absent? <==> tag.None?
    ensures tag.Some? ==> b.tag == Val(tag.value)
    ensures b.description.Absent? <==> description.None?
    ensures description.Some? ==> b.description == Val(description.value)
    ensures b.randomSeed.Absent? <==> seed == Some(42)
    ensures b.randomSeed.Null? <==> seed.None?
    ensures b.randomSeed.Val? ==> seed == Some(b.randomSeed.value) && b.randomSeed.value != 42
    ensures b.weightOption.Absent? && b.typeOption.Absent? && b.identnaParams.Absent?
  {
    FitBody(data,
      if mapLabel.Some? then Val(mapLabel.value) else Absent,
      if tag.Some? then Val(tag.value) else Absent,
      if description.Some? then Val(description.value) else Absent,
      Absent, Absent,
      if seed == Some(42) then Absent else if seed.None? then Null else Val(seed.value),
      Absent)
  }

  /** A positional argument of `addplot`, by its Python type. */
  datatype PyArg = IntArg(i: int) | BoolArg(b: bool) | StrArg(s: string) | OtherArg

  /**
   * The map number an argument gives when `isinstance(arg, int)` holds,
   * which it does for booleans too; a boolean is kept as the boolean.
   */
  function IntValue(a: PyArg): Option<MapNoJson> {
    match a
    case IntArg(i) => Some(Num(i))
    case BoolArg(b) => Some(Flag(b))
    case _ => None
  }

  function StrValue(a: PyArg): Option<string> {
    if a.StrArg? then Some(a.s) else None
  }

  /** The integer (or boolean) the argument scan keeps: the last one. */
  function LastInt(args: seq<PyArg>): Option<MapNoJson>
    decreases |args|
  {
    if |args| == 0 then None
    else if IntValue(args[|args| - 1]).Some? then IntValue(args[|args| - 1])
    else LastInt(args[..|args| - 1])
  }

  /** The string the argument scan keeps: the last one. */
  function LastStr(args: seq<PyArg>): Option<string>
    decreases |args|
  {
    if |args| == 0 then None
    else if args[|args| - 1].StrArg? then Some(args[|args| - 1].s)
    else LastStr(args[..|args| - 1])
  }

  /** The scan keeps an integer iff some argument is one, and then it is the value of the last such argument. */
  lemma {:induction false} LastIntIsLast(args: seq<PyArg>)
    ensures LastInt(args).None? <==> forall i :: 0 <= i < |args| ==> IntValue(args[i]).None?
    ensures LastInt(args).Some? ==>
      exists i :: 0 <= i < |args| && IntValue(args[i]) == LastInt(args) && forall j :: i < j < |args| ==> IntValue(args[j]).None?
    decreases |args|
  {
    if |args| > 0 {
      var init := args[..|args| - 1];
      LastIntIsLast(init);
      assert forall i :: 0 <= i < |init| ==> init[i] == args[i];
    }
  }

  /** The scan keeps a string iff some argument is one, and then it is the last such argument. */
  lemma {:induction false} LastStrIsLast(args: seq<PyArg>)
    ensures LastStr(args).None? <==> forall i :: 0 <= i < |args| ==> !args[i].StrArg?
    ensures LastStr(args).Some? ==>
      exists i :: 0 <= i < |args| && args[i] == StrArg(LastStr(args).value) && forall j :: i < j < |args| ==> !args[j].StrArg?
    decreases |args|
  {
    if |args| > 0 {
      var init := args[..|args| - 1];
      LastStrIsLast(init);
      assert forall i :: 0 <= i < |init| ==> init[i] == args[i];
    }
  }

  /** Where `addplot` takes its map number from. */
  datatype MapSource = FromDirectory(dir: string) | Explicit(arg: MapNoJson) | Cached(mapNo: int) | NoMap

  /** The precedence of `addplot`: a directory argument, then an integer argument, then `self.mapNo`. */
  function PyMapSource(args: seq<PyArg>, cached: Option<int>): MapSource {
    if LastStr(args).Some? then FromDirectory(LastStr(args).value)
    else if LastInt(args).Some? then Explicit(LastInt(args).value)
    else if cached.Some? then Cached(cached.value)
    else NoMap
  }

  /**
   * A directory argument wins wherever it stands among the arguments; an
   * integer argument wins over the cached map number; with neither and no
   * cached number there is no map.
   */
  lemma PyMapSourcePrecedence(args: seq<PyArg>, cached: Option<int>)
    ensures (exists i :: 0 <= i < |args| && args[i].StrArg?) ==> PyMapSource(args, cached).FromDirectory?
    ensures (forall i :: 0 <= i < |args| ==> !args[i].StrArg?) && (exists i :: 0 <= i < |args| && IntValue(args[i]).Some?)
      ==> PyMapSource(args, cached).Explicit?
    ensures PyMapSource(args, cached) == NoMap
      <==> cached.None? && forall i :: 0 <= i < |args| ==> !args[i].StrArg? && IntValue(args[i]).None?
  {
    LastIntIsLast(args);
    LastStrIsLast(args);
  }

  /**
   * With no string argument, a boolean last among the integer-like
   * arguments is the map number, and the body carries it as the JSON
   * boolean rather than as 1 or 0.
   */
  lemma BooleanMapNoSentAsIs(data: Frame, args: seq<PyArg>, b: bool, cached: Option<int>)
    requires |args| > 0 && args[|args| - 1] == BoolArg(b)
    requires forall i :: 0 <= i < |args| ==> !args[i].StrArg?
    ensures PyMapSource(args, cached) == Explicit(Flag(b))
    ensures PyAddplotBody(data, PyMapSource(args, cached).arg).mapNo == Flag(b)
  {
    LastStrIsLast(args);
    assert LastInt(args) == IntValue(BoolArg(b));
  }

  // ---------------------------------------------------------------- import_map

  /** What an import does after its guard: the outcome, the requests, and the share URL it stores (if it stores one). */
  datatype ImportRun<T> = ImportRun(outcome: Outcome<T>, requests: seq<Request>, shareUrl: Option<Option<string>>)

  /**
   * `import_map` with session key `key`: checksum lookup first; on a hit the
   * server's number is the answer; otherwise the top-level files are read
   * and uploaded, and only a 201 reply yields a number.
   */
  ghost function ImportSpec(fs: Fs, dir: Path, key: string, server: Server, md5: seq<byte> -> string): ImportRun<int> {
    var checksum := md5(ChecksumInput(fs, dir));
    var cmp := server.compareChecksum(key, checksum);
    var asked := [CompareChecksum(key, checksum)];
    if cmp.status == 200 && cmp.body.Some? && cmp.body.value.mapNo.Absent? then
      ImportRun(Raised(KeyError("mapNo")), asked, None)
    else if cmp.status == 200 && cmp.body.Some? && cmp.body.value.mapNo.Val? then
      ImportRun(Returned(Some(cmp.body.value.mapNo.value)), asked, Some(cmp.body.value.shareUrl))
    else if !IsDir(fs, dir) then
      ImportRun(Raised(OsError(dir)), asked, None)
    else
      var data := PyMapData(fs, dir);
      var reply := server.importMap(key, data);
      var uploaded := asked + [ImportMap(key, data)];
      if reply.status != 201 then ImportRun(Returned(None), uploaded, None)
      else match reply.mapNo
        case Absent => ImportRun(Raised(KeyError("mapNo")), uploaded, Some(reply.shareUrl))
        case Null => ImportRun(Returned(None), uploaded, Some(reply.shareUrl))
        case Val(n) => ImportRun(Returned(Some(n)), uploaded, Some(reply.shareUrl))
  }

  /** A checksum hit returns the server's map number and uploads nothing. */
  lemma ImportHitSkipsUpload(fs: Fs, dir: Path, key: string, server: Server, md5: seq<byte> -> string)
    requires var cmp := server.compareChecksum(key, md5(ChecksumInput(fs, dir)));
      cmp.status == 200 && cmp.body.Some? && cmp.body.value.mapNo.Val?
    ensures var run := ImportSpec(fs, dir, key, server, md5);
      run.outcome == Returned(Some(server.compareChecksum(key, md5(ChecksumInput(fs, dir))).body.value.mapNo.value))
      && forall r :: r in run.requests ==> !r.ImportMap?
  {
  }

  /**
   * An import yields a number only from a checksum hit or from a 201 reply
   * to an upload of exactly the directory's top-level files; any other
   * upload status yields `None`.
   */
  lemma ImportNumberSources(fs: Fs, dir: Path, key: string, server: Server, md5: seq<byte> -> string)
    ensures var run := ImportSpec(fs, dir, key, server, md5);
      forall r :: r in run.requests && r.ImportMap? ==> r == ImportMap(key, PyMapData(fs, dir))
    ensures var run := ImportSpec(fs, dir, key, server, md5);
      (run.outcome.Returned? && run.outcome.value.Some? && |run.requests| == 2 ==>
        server.importMap(key, PyMapData(fs, dir)).status == 201
        && server.importMap(key, PyMapData(fs, dir)).mapNo == Val(run.outcome.value.value))
    ensures var run := ImportSpec(fs, dir, key, server, md5);
      |run.requests| == 2 && server.importMap(key, PyMapData(fs, dir)).status != 201 ==> run.outcome == Returned(None)
  {
  }

  /**
   * How `addplot` obtains its map number once the session key is `key`:
   * through an import for a directory argument (with that import's requests
   * and share URL), directly otherwise.
   */
  ghost function MapNoRun(args: seq<PyArg>, cached: Option<int>, fs: Fs, key: string, server: Server, md5: seq<byte> -> string): ImportRun<MapNoJson> {
    match PyMapSource(args, cached)
    case FromDirectory(dir) =>
      var run := ImportSpec(fs, dir, key, server, md5);
      ImportRun(AsMapNo(run.outcome), run.requests, run.shareUrl)
    case Explicit(n) => ImportRun(Returned(Some(n)), [], None)
    case Cached(n) => ImportRun(Returned(Some(Num(n))), [], None)
    case NoMap => ImportRun(Returned(None), [], None)
  }

  /** A number from an import or from `self.mapNo`, as the JSON number it is sent as. */
  function AsMapNo(o: Outcome<int>): (r: Outcome<MapNoJson>)
    ensures r.Raised? <==> o.Raised?
    ensures o.Raised? ==> r.error == o.error
    ensures o.Returned? ==> (r.value.Some? <==> o.value.Some?)
    ensures o.Returned? && o.value.Some? ==> r.value.value == Num(o.value.value)
  {
    match o
    case Raised(e) => Raised(e)
    case Returned(None) => Returned(None)
    case Returned(Some(n)) => Returned(Some(Num(n)))
  }

  /** The body `addplot` posts: the table and the map number, nothing else. */
  function PyAddplotBody(data: Frame, mapNo: MapNoJson): (b: AddplotBody)
    ensures b.data == data && b.mapNo == mapNo
    ensures b.weightOption.Absent? && b.typeOption.Absent? && b.detabnMaxWindow.Absent?
    ensures b.detabnRateThreshold.Absent? && b.detabnThreshold.Absent? && b.detabnPrintScore.Absent?
  {
    AddplotBody(data, mapNo, Absent, Absent, Absent, Absent, Absent, Absent)
  }

  // ---------------------------------------------------------------- file loops

  /** The `export_map` loop: every entry is attempted; one that fails is reported and skipped. */
  method SaveEntries(fs: Fs, dir: Path, entries: seq<(string, string)>) returns (saved: Fs)
    ensures saved == PyExportFiles(fs, dir, entries)
  {
    saved := fs;
    var i := 0;
    while i < |entries|
      invariant 0 <= i <= |entries|
      invariant saved == PyExportFiles(fs, dir, entries[..i])
    {
      assert entries[..i + 1][..i] == entries[..i];
      var (name, b64) := entries[i];
      var bytes := Base64.DecodeLenient(b64);
      if bytes.Some? {
        var text := Utf8.Decode(bytes.value);
        if text.Some? {
          var written := WriteFile(saved, PyJoin(dir, name), Utf8.Encode(text.value));
          if written.Some? {
            saved := written.value;
          }
        }
      }
      i := i + 1;
    }
    assert entries[..|entries|] == entries;
  }

  /** The `md5.update` loop over a list of paths: regular files contribute their bytes, in list order. */
  method StreamFiles(fs: Fs, ps: seq<Path>) returns (acc: seq<byte>)
    ensures acc == Stream(fs, ps)
  {
    acc := [];
    var i := 0;
    while i < |ps|
      invariant 0 <= i <= |ps|
      invariant acc == Stream(fs, ps[..i])
    {
      assert ps[..i + 1][..i] == ps[..i];
      if IsFile(fs, ps[i]) {
        acc := acc + fs.tree[ps[i]].content;
      }
      i := i + 1;
    }
    assert ps[..|ps|] == ps;
  }

  /** The loop over a directory listing: each entry that is a regular file, base64-encoded under its name. */
  method EncodeFiles(fs: Fs, dir: Path, listing: seq<string>) returns (data: map<string, string>)
    ensures forall n :: n in data <==> n in listing && IsFile(fs, Join(dir, n))
    ensures forall n :: n in data ==> IsFile(fs, Join(dir, n)) && data[n] == Base64.Encode(fs.tree[Join(dir, n)].content)
  {
    data := map[];
    var i := 0;
    while i < |listing|
      invariant 0 <= i <= |listing|
      invariant forall n :: n in data <==> n in listing[..i] && IsFile(fs, Join(dir, n))
      invariant forall n :: n in data ==> IsFile(fs, Join(dir, n)) && data[n] == Base64.Encode(fs.tree[Join(dir, n)].content)
    {
      assert listing[..i + 1] == listing[..i] + [listing[i]];
      var p := Join(dir, listing[i]);
      if IsFile(fs, p) {
        data := data[listing[i] := Base64.Encode(fs.tree[p].content)];
      }
      i := i + 1;
    }
    assert listing[..|listing|] == listing;
  }

  // ---------------------------------------------------------------- the client

  class Client {
    var apiKey: string
    var sessionKey: Option<string>
    var mapNo: Option<int>
    var shareUrl: Option<string>
    var currentAddPlotNo: Option<int>
    /** Every request sent so far, oldest first. */
    var sent: seq<Request>

    constructor(apiKey: string)
      ensures this.apiKey == apiKey && sessionKey == None && mapNo == None
      ensures shareUrl == None && currentAddPlotNo == None && sent == []
    {
      this.apiKey := apiKey;
      sessionKey := None;
      mapNo := None;
      shareUrl := None;
      currentAddPlotNo := None;
      sent := [];
    }

    /** `authenticate`: one login request; the key of a 200 reply, otherwise `None`. */
    method Authenticate(server: Server) returns (key: Option<string>)
      modifies this`sent
      ensures sent == old(sent) + [Login(apiKey)]
      ensures key == LoginKey(server.login(apiKey))
    {
      sent := sent + [Login(apiKey)];
      var reply := server.login(apiKey);
      if reply.status == 200 {
        key := reply.sessionKey;
      } else {
        key := None;
      }
    }

    /** `pre_authentication`: log in only when no key is cached; report whether the method may run. */
    method PreAuthentication(server: Server) returns (proceed: bool)
      modifies this`sent, this`sessionKey
      ensures sent == old(sent) + GuardLog(old(sessionKey), apiKey)
      ensures sessionKey == GuardKey(old(sessionKey), server.login(apiKey))
      ensures proceed <==> Truthy(sessionKey)
    {
      if !Truthy(sessionKey) {
        sessionKey := Authenticate(server);
        if !Truthy(sessionKey) {
          return false;
        }
      }
      return true;
    }

    /** `fit_transform`: post the table with its optional fields; a 200 reply sets the map number and share URL. */
    method FitTransform(data: Frame, mapLabel: Option<string>, tag: Option<string>, description: Option<string>, seed: Option<int>, server: Server)
      returns (r: Option<Xy>)
      modifies this`sent, this`sessionKey, this`mapNo, this`shareUrl
      ensures sessionKey == GuardKey(old(sessionKey), server.login(apiKey))
      ensures !Truthy(sessionKey) ==>
        r == None && sent == old(sent) + GuardLog(old(sessionKey), apiKey) && mapNo == old(mapNo) && shareUrl == old(shareUrl)
      ensures Truthy(sessionKey) ==>
        var body := PyFitBody(data, mapLabel, tag, description, seed);
        var reply := server.fitTransform(sessionKey.value, body);
        sent == old(sent) + GuardLog(old(sessionKey), apiKey) + [Request.FitTransform(sessionKey.value, body)]
        && (reply.status == 200 ==> r == Some(reply.xyData) && mapNo == reply.mapNo && shareUrl == reply.shareUrl)
        && (reply.status != 200 ==> r == None && mapNo == old(mapNo) && shareUrl == old(shareUrl))
    {
      var go := PreAuthentication(server);
      if !go {
        return None;
      }
      var body := FitBody(data, Absent, Absent, Absent, Absent, Absent, Absent, Absent);
      if mapLabel.Some? {
        body := body.(mapLabel := Val(mapLabel.value));
      }
      if tag.Some? {
        body := body.(tag := Val(tag.value));
      }
      if description.Some? {
        body := body.(description := Val(description.value));
      }
      if seed != Some(42) {
        body := body.(randomSeed := if seed.Some? then Val(seed.value) else Null);
      }
      sent := sent + [Request.FitTransform(sessionKey.value, body)];
      var reply := server.fitTransform(sessionKey.value, body);
      if reply.status == 200 {
        mapNo := reply.mapNo;
        shareUrl := reply.shareUrl;
        return Some(reply.xyData);
      }
      return None;
    }

    /** The loop over `*args`: the last integer (booleans included) and the last string. */
    method ScanArgs(args: seq<PyArg>) returns (n: Option<MapNoJson>, dir: Option<string>)
      ensures n == LastInt(args) && dir == LastStr(args)
    {
      n, dir := None, None;
      var i := 0;
      while i < |args|
        invariant 0 <= i <= |args|
        invariant n == LastInt(args[..i]) && dir == LastStr(args[..i])
      {
        assert args[..i + 1][..i] == args[..i];
        match args[i] {
          case IntArg(v) =>
            n := Some(Num(v));
          case BoolArg(b) =>
            n := Some(Flag(b));
          case StrArg(s) =>
            dir := Some(s);
          case OtherArg =>
        }
        i := i + 1;
      }
      assert args[..|args|] == args;
    }

    /** `calculate_checksum`: MD5 over the globbed regular files, fed in ascending path order. */
    method CalculateChecksum(fs: Fs, dir: Path, md5: seq<byte> -> string) returns (checksum: string)
      ensures checksum == md5(ChecksumInput(fs, dir))
    {
      var globbed := GlobSet(fs, dir);
      var found := Enumerate(globbed);
      var sorted := Sort(found);
      SortIsSortedSet(found, globbed);
      var acc := StreamFiles(fs, sorted);
      checksum := md5(acc);
    }

    /** `_read_map_data_from_directory`: every top-level regular file as base64; a missing directory raises. */
    method ReadMapData(fs: Fs, dir: Path) returns (r: Result<map<string, string>, PyError>)
      ensures IsDir(fs, dir) ==> r == Success(PyMapData(fs, dir))
      ensures !IsDir(fs, dir) ==> r == Failure(OsError(dir))
    {
      var names := ListDir(fs, dir);
      if names.None? {
        return Failure(OsError(dir));
      }
      var listing := Enumerate(names.value);
      var data := EncodeFiles(fs, dir, listing);
      assert data.Keys == TopFiles(fs, dir);
      assert forall n :: n in data ==> data[n] == PyMapData(fs, dir)[n];
      assert data == PyMapData(fs, dir);
      return Success(data);
    }

    /** `compare_checksum` (guarded): a 200 JSON reply naming a map sets the share URL and returns the number. */
    method CompareChecksum(checksum: string, server: Server) returns (out: Outcome<int>)
      modifies this`sent, this`sessionKey, this`shareUrl
      ensures sessionKey == GuardKey(old(sessionKey), server.login(apiKey))
      ensures !Truthy(sessionKey) ==>
        out == Returned(None) && sent == old(sent) + GuardLog(old(sessionKey), apiKey) && shareUrl == old(shareUrl)
      ensures Truthy(sessionKey) ==>
        var cmp := server.compareChecksum(sessionKey.value, checksum);
        sent == old(sent) + GuardLog(old(sessionKey), apiKey) + [Request.CompareChecksum(sessionKey.value, checksum)]
        && (cmp.status == 200 && cmp.body.Some? && cmp.body.value.mapNo.Absent? ==>
              out == Raised(KeyError("mapNo")) && shareUrl == old(shareUrl))
        && (cmp.status == 200 && cmp.body.Some? && cmp.body.value.mapNo.Val? ==>
              out == Returned(Some(cmp.body.value.mapNo.value)) && shareUrl == cmp.body.value.shareUrl)
        && (cmp.status != 200 || cmp.body.None? || cmp.body.value.mapNo.Null? ==>
              out == Returned(None) && shareUrl == old(shareUrl))
    {
      var go := PreAuthentication(server);
      if !go {
        return Returned(None);
      }
      sent := sent + [Request.CompareChecksum(sessionKey.value, checksum)];
      var cmp := server.compareChecksum(sessionKey.value, checksum);
      if cmp.status != 200 || cmp.body.None? {
        return Returned(None);
      }
      match cmp.body.value.mapNo
      case Absent =>
        return Raised(KeyError("mapNo"));
      case Null =>
        return Returned(None);
      case Val(n) =>
        shareUrl := cmp.body.value.shareUrl;
        return Returned(Some(n));
    }

    /** `import_map` (guarded): checksum lookup, then upload on a miss. */
    method ImportMap(dir: Path, fs: Fs, server: Server, md5: seq<byte> -> string) returns (out: Outcome<int>)
      modifies this`sent, this`sessionKey, this`shareUrl
      ensures sessionKey == GuardKey(old(sessionKey), server.login(apiKey))
      ensures !Truthy(sessionKey) ==>
        out == Returned(None) && sent == old(sent) + GuardLog(old(sessionKey), apiKey) && shareUrl == old(shareUrl)
      ensures Truthy(sessionKey) ==>
        var run := ImportSpec(fs, dir, sessionKey.value, server, md5);
        out == run.outcome
        && sent == old(sent) + GuardLog(old(sessionKey), apiKey) + run.requests
        && shareUrl == (if run.shareUrl.Some? then run.shareUrl.value else old(shareUrl))
    {
      var go := PreAuthentication(server);
      if !go {
        return Returned(None);
      }
      var checksum := CalculateChecksum(fs, dir, md5);
      var existing := CompareChecksum(checksum, server);
      if existing.Raised? {
        return existing;
      }
      if existing.value.Some? {
        return existing;
      }
      var data := ReadMapData(fs, dir);
      if data.Failure? {
        return Raised(data.error);
      }
      sent := sent + [Request.ImportMap(sessionKey.value, data.value)];
      var reply := server.importMap(sessionKey.value, data.value);
      if reply.status != 201 {
        return Returned(None);
      }
      shareUrl := reply.shareUrl;
      match reply.mapNo
      case Absent =>
        return Raised(KeyError("mapNo"));
      case Null =>
        return Returned(None);
      case Val(n) =>
        return Returned(Some(n));
    }

    /**
     * `addplot` (guarded): resolve the map number (directory, then integer
     * argument, then `self.mapNo`) and post; with no number nothing is posted.
     */
    method Addplot(data: Frame, args: seq<PyArg>, fs: Fs, server: Server, md5: seq<byte> -> string) returns (out: Outcome<Xy>)
      modifies this`sent, this`sessionKey, this`shareUrl, this`currentAddPlotNo
      ensures sessionKey == GuardKey(old(sessionKey), server.login(apiKey))
      ensures !Truthy(sessionKey) ==>
        out == Returned(None) && sent == old(sent) + GuardLog(old(sessionKey), apiKey)
        && shareUrl == old(shareUrl) && currentAddPlotNo == old(currentAddPlotNo)
      ensures Truthy(sessionKey) ==>
        var run := MapNoRun(args, old(mapNo), fs, sessionKey.value, server, md5);
        var before := old(sent) + GuardLog(old(sessionKey), apiKey) + run.requests;
        var urlBefore := if run.shareUrl.Some? then run.shareUrl.value else old(shareUrl);
        if run.outcome.Returned? && run.outcome.value.Some? then
          var body := PyAddplotBody(data, run.outcome.value.value);
          var reply := server.addplot(sessionKey.value, body);
          sent == before + [Request.Addplot(sessionKey.value, body)]
          && (reply.status == 200 ==>
                out == Returned(Some(reply.xyData)) && currentAddPlotNo == reply.addPlotNo && shareUrl == reply.shareUrl)
          && (reply.status != 200 ==>
                out == Returned(None) && currentAddPlotNo == old(currentAddPlotNo) && shareUrl == urlBefore)
        else
          sent == before && shareUrl == urlBefore && currentAddPlotNo == old(currentAddPlotNo)
          && out == (if run.outcome.Raised? then Raised(run.outcome.error) else Returned(None))
    {
      var go := PreAuthentication(server);
      if !go {
        return Returned(None);
      }
      var resolved := ResolveMapNo(args, fs, server, md5);
      if resolved.Raised? {
        return Raised(resolved.error);
      }
      if resolved.value.None? {
        return Returned(None);
      }
      var target := resolved.value.value;
      var body := PyAddplotBody(data, target);
      sent := sent + [Request.Addplot(sessionKey.value, body)];
      var reply := server.addplot(sessionKey.value, body);
      if reply.status == 200 {
        currentAddPlotNo := reply.addPlotNo;
        shareUrl := reply.shareUrl;
        return Returned(Some(reply.xyData));
      }
      return Returned(None);
    }

    /** The map number `addplot` posts to, importing the directory argument when there is one. */
    method ResolveMapNo(args: seq<PyArg>, fs: Fs, server: Server, md5: seq<byte> -> string) returns (target: Outcome<MapNoJson>)
      requires Truthy(sessionKey)
      modifies this`sent, this`sessionKey, this`shareUrl
      ensures sessionKey == old(sessionKey)
      ensures var run := MapNoRun(args, mapNo, fs, sessionKey.value, server, md5);
        && target == run.outcome
        && sent == old(sent) + run.requests
        && shareUrl == (if run.shareUrl.Some? then run.shareUrl.value else old(shareUrl))
    {
      var n, dir := ScanArgs(args);
      if dir.Some? {
        var imported := ImportMap(dir.value, fs, server, md5);
        target := AsMapNo(imported);
      } else if n.Some? {
        target := Returned(Some(n.value));
      } else if mapNo.Some? {
        target := Returned(Some(Num(mapNo.value)));
      } else {
        target := Returned(None);
      }
    }

    /**
     * `export_map` (guarded): on a 200 reply, record the share URL, create the
     * directory, and attempt every entry; otherwise touch nothing.
     */
    method ExportMap(mapNo: int, dir: Path, fs: Fs, server: Server) returns (out: Outcome<seq<(string, string)>>, after: Fs)
      modifies this`sent, this`sessionKey, this`shareUrl
      ensures sessionKey == GuardKey(old(sessionKey), server.login(apiKey))
      ensures !Truthy(sessionKey) ==>
        out == Returned(None) && after == fs && sent == old(sent) + GuardLog(old(sessionKey), apiKey) && shareUrl == old(shareUrl)
      ensures Truthy(sessionKey) ==>
        var reply := server.exportMap(sessionKey.value, mapNo);
        sent == old(sent) + GuardLog(old(sessionKey), apiKey) + [Request.ExportMap(sessionKey.value, mapNo)]
        && (reply.status != 200 ==> out == Returned(None) && after == fs && shareUrl == old(shareUrl))
        && (reply.status == 200 ==> shareUrl == reply.shareUrl)
        && (reply.status == 200 && !MakeDirs(fs, dir).ok ==> out == Raised(OsError(dir)) && after == MakeDirs(fs, dir).fs)
        && (reply.status == 200 && MakeDirs(fs, dir).ok && reply.mapData.Null? ==>
              out == Raised(AttributeError) && after == MakeDirs(fs, dir).fs)
        && (reply.status == 200 && MakeDirs(fs, dir).ok && !reply.mapData.Null? ==>
              var entries := if reply.mapData.Val? then reply.mapData.value else [];
              out == Returned(Some(entries)) && after == PyExportFiles(MakeDirs(fs, dir).fs, dir, entries))
    {
      after := fs;
      var go := PreAuthentication(server);
      if !go {
        return Returned(None), after;
      }
      sent := sent + [Request.ExportMap(sessionKey.value, mapNo)];
      var reply := server.exportMap(sessionKey.value, mapNo);
      if reply.status != 200 {
        return Returned(None), after;
      }
      shareUrl := reply.shareUrl;
      var made := MakeDirs(fs, dir);
      after := made.fs;
      if !made.ok {
        return Raised(OsError(dir)), after;
      }
      match reply.mapData
      case Null =>
        return Raised(AttributeError), after;
      case Absent =>
        return Returned(Some([])), after;
      case Val(entries) =>
        after := SaveEntries(after, dir, entries);
        return Returned(Some(entries)), after;
    }
  }
}
