# toorPIA clients and MCP tools, modelled in Dafny

toorPIA is a mapping service reached over HTTP. This project models the
client-side logic of its two clients and of its MCP (Model Context Protocol)
server:

- the Python client `toorPIA` (`toorpia/client.py`);
- the TypeScript client `ToorPIAClient` (`mcp/src/client/toorpia.ts`). The
  standalone server in `mcp/src/index.ts` carries a second copy of it;
- the `tools/call` switch of that server;
- the CSV schema tools (`mcp/src/tools/csv.ts`);
- the common tools and their error wrapping (`mcp/src/tools/common.ts`),
  with the WAV tool wrappers (`mcp/src/tools/wav.ts`).

The server is an oracle. Each endpoint is a function from the session key
and the request body to a reply, passed in as a parameter. Each client
object keeps a log `sent` of the requests it issued, so "no upload was made"
is a statement about that log. The local file system is a value: a map from
'/'-joined paths to `File(bytes)` or `Dir`, plus a set of paths that cannot
be written. Operations that read or write files take it and return the new
one. MD5 and Node's lenient base64 decoder are parameters, since they are
functions the model does not look inside.

Modules, in dependency order:

- `Wrappers`, `Bytes`, `Text`: option and result types, bytes, and Python's
  string order with the `sorted()` it induces.
- `FileSystem`: the tree, `os.path.join`, listing, writing, `makedirs`.
- `Base64` (section 4 of RFC 4648) and `Utf8` (the well-formed byte
  sequences of Table 3-7 of the Unicode Standard). Both come with
  round-trip proofs. `Base64` has a strict decoder and the lenient decoder
  of Python's `b64decode`, proved to agree on canonical text. `Utf8` has a strict decoder (Python) and a replacing
  decoder (Node).
- `Snapshot`: what the checksum hashes, what each client uploads, and what
  each client's download loop leaves on disk.
- `Http`: request bodies, replies, the server oracle and the request log.
- `PyClient`: the `toorPIA` class. Its methods update `session_key`,
  `mapNo`, `shareUrl` and `currentAddPlotNo` in place, behind the
  `pre_authentication` guard.
- `TsClient`: the `ToorPIAClient` class, with `ensureAuth`, body building
  and the upload and download loops.
- `ToolCalls`: the client operation behind each MCP tool.
- `CommonTools`: `detectFileType`, the `{ok: false, code, reason}`
  wrappers, `whoami` and the `ENABLE_WAV` gate.
- `McpServer`: the `tools/call` switch of `mcp/src/index.ts`.
- `CsvTools`: column type inference, default weights, the schema store,
  in-place patching and the runner's drop list.

The copy of `ToorPIAClient` in `mcp/src/index.ts` is identical, line for
line, to `mcp/src/client/toorpia.ts`: lines 53-392 of the first match lines
18-357 of the second. Only the constructor differs; it takes the API URL and
key as arguments. So `TsClient.Client` models both. Its constructor takes
the API key, which the module-level client reads from `TOORPIA_API_KEY`.

Behaviours of the code that shape the model:

- Python's checksum and upload apply no file-name filter. Only the
  TypeScript upload excludes `segments-add-*`, `xy-add-*`, `rawdata_add_*`
  and `*.log`, and nothing filters on download.
- The checksum covers every regular file at any depth below the map
  directory, reached through names that do not start with '.', because
  that is what `glob` returns. The upload covers the top-level files only,
  hidden ones included.
- Neither client logs in again after a rejected request. The guards log in
  only when no key is cached.
- The TypeScript download stops at the first file it cannot write. The
  Python download goes on past a failing file.
- Both downloads go through text. Python decodes base64 with
  `b64decode`, which skips characters outside the alphabet and stops at
  the padding, and then decodes UTF-8 strictly; an entry that fails either
  step is skipped. Node decodes base64 leniently and replaces ill-formed
  UTF-8 with U+FFFD. So files come back byte for byte only when their
  content is well-formed UTF-8.
- Both clients create the export directory with its missing ancestors. A
  failure part-way leaves the ancestors created before it in place.
- Python's `addplot` takes a boolean positional argument as the map
  number, since `isinstance(True, int)` holds, and sends it as the JSON
  boolean.

## Model

| member | source | states |
|---|---|---|
| PyClient.LoginKey | toorpia/client.py:33-41 | `authenticate` yields a key only from a 200 reply, and then exactly the reply's `sessionKey` |
| PyClient.GuardLog | toorpia/client.py:12-20 | the guard sends no login when a truthy key is cached, and exactly one login with the API key otherwise |
| PyClient.GuardKey | toorpia/client.py:12-20 | a cached truthy key is kept; otherwise the key becomes what the login returns |
| PyClient.GuardNeverReauthenticates | toorpia/client.py:14-19 | once a guard has let a call through, every later guard sends no login and keeps the same key |
| PyClient.FailedLoginLeavesNoKey | toorpia/client.py:15-18 | a non-200 login, or a 200 without a usable `sessionKey`, leaves no usable key, so the method does not run |
| PyClient.Client.constructor | toorpia/client.py:22-31 | a new client has the given API key, no session key, no map number, no share URL, no add-plot number and has sent nothing |
| PyClient.Client.Authenticate | toorpia/client.py:33-41 | one login request is logged; the result is the key of a 200 reply, otherwise `None` |
| PyClient.Client.PreAuthentication | toorpia/client.py:12-20 | logs a login only when no truthy key was cached, stores the resulting key, and lets the method run exactly when a truthy key is then set |
| PyClient.PyFitBody | toorpia/client.py:52-59 | `label`, `tag` and `description` appear exactly when given; `randomSeed` is left out exactly for 42, sent as `null` for `None` and as the value otherwise; no option or identna field is sent |
| PyClient.Client.FitTransform | toorpia/client.py:43-73 | after the guard: a failed login returns `None` and sends nothing else; otherwise exactly one fit request with that body; a 200 reply returns the coordinates and sets `mapNo` and `shareUrl`; any other status returns `None` and changes neither |
| PyClient.Client.ScanArgs | toorpia/client.py:85-89 | the loop over `*args` keeps the last integer or boolean argument, a boolean staying a boolean, and the last string argument |
| PyClient.LastIntIsLast | toorpia/client.py:85-89 | the scan finds a map number exactly when some argument is an integer or a boolean, and it is the value of the last such argument |
| PyClient.LastStrIsLast | toorpia/client.py:85-89 | the scan finds a string exactly when some argument is one, and it is the last such argument |
| PyClient.PyMapSourcePrecedence | toorpia/client.py:91-104 | a directory argument wins wherever it stands; otherwise an integer argument wins over `self.mapNo`; there is no map number exactly when there is neither argument and no cached number |
| PyClient.PyAddplotBody | toorpia/client.py:79-101 | the add-plot body is the table with the chosen map number and nothing else |
| PyClient.BooleanMapNoSentAsIs | toorpia/client.py:85-98 | with no string argument, a boolean last among the integer-like arguments is the map number, and the body carries it as the JSON boolean rather than 1 or 0 |
| PyClient.Client.ResolveMapNo | toorpia/client.py:91-104 | with a session open, the map number comes from importing the directory argument (with that import's requests and share URL) or directly from the integer argument or cached number |
| PyClient.Client.Addplot | toorpia/client.py:75-123 | after the guard: with no map number (or a failed import) no add-plot request is sent; otherwise exactly one, and only a 200 reply returns coordinates and sets `currentAddPlotNo` and `shareUrl` |
| PyClient.Client.CalculateChecksum | toorpia/client.py:258-274 | the checksum is the hash of the bytes of every globbed regular file, in ascending path order |
| PyClient.StreamFiles | toorpia/client.py:268-272 | the `md5.update` loop feeds each regular file's bytes in list order and skips everything else |
| PyClient.Client.ReadMapData | toorpia/client.py:247-256 | every top-level regular file of the directory, hidden ones included and no other name filtered, under its name as the base64 of its bytes; a missing directory raises |
| PyClient.EncodeFiles | toorpia/client.py:250-256 | the names kept are exactly the listed names that are regular files, each mapped to the base64 of that file's bytes |
| PyClient.Client.CompareChecksum | toorpia/client.py:276-298 | after the guard: one comparison request; a 200 reply naming a map returns its number and sets `shareUrl`; a `null` number or any other status returns `None` and leaves `shareUrl`; a reply without `mapNo` raises `KeyError` |
| PyClient.ImportHitSkipsUpload | toorpia/client.py:181-187 | when the comparison returns a map number, the import returns it and sends no upload request |
| PyClient.ImportNumberSources | toorpia/client.py:197-209 | an upload carries exactly the directory's top-level files; after an upload a number comes back only from a 201 reply and is that reply's `mapNo`; any other status gives `None` |
| PyClient.Client.ImportMap | toorpia/client.py:177-209 | after the guard the requests, result and share URL are exactly those of the comparison-then-upload run |
| PyClient.Client.ExportMap | toorpia/client.py:139-172 | after the guard: one export request; a non-200 reply returns `None` and changes no file; a 200 reply sets `shareUrl` and creates the directory with its ancestors; a failed creation raises and leaves the ancestors it created; otherwise every entry is attempted |
| PyClient.SaveEntries | toorpia/client.py:154-163 | the download loop leaves exactly the tree of the best-effort specification: each failing entry is skipped and the loop goes on |
| Snapshot.PyExportStoresEveryGoodEntry | toorpia/client.py:154-163 | every entry that `b64decode` accepts, with UTF-8 content, whose path can be written ends up on disk with exactly the decoded bytes, whatever the other entries do |
| Snapshot.PyExportKeepsOthers | toorpia/client.py:154-163 | the Python download changes no path that no entry names |
| Snapshot.ExportThenReadRoundTrip | toorpia/client.py:154-163 | after a Python download, reading the directory for upload gives each such entry as the canonical base64 of the bytes stored, which is the entry's own text when that text was canonical |
| Snapshot.StreamSkipsNonFiles | toorpia/client.py:268-272 | the hashed stream over globbed paths is the concatenation of the regular files among them, in order |
| Snapshot.ChecksumCoversFilesOnly | toorpia/client.py:263-274 | the hash input depends only on the regular files below the directory, taken in ascending path order |
| Snapshot.ChecksumIgnoresDirectories | toorpia/client.py:263-274 | two trees with the same regular files below the map directory give the same checksum |
| Text.Sort | toorpia/client.py:266 | `sorted()` returns a permutation of its input in non-decreasing code-point order |
| Text.SortIgnoresListingOrder | toorpia/client.py:266 | two listings of the same paths without repetition sort to the same sequence, whatever order the walk produced |
| Text.SortIsSortedSet | toorpia/client.py:263-266 | sorting any listing of a set of paths gives that set in ascending order |
| FileSystem.PyJoin | toorpia/client.py:157 | for a plain name and a directory without a trailing '/', `os.path.join` gives directory, '/', name |
| FileSystem.ChildrenAreEntries | toorpia/client.py:250 | a name is listed exactly when it is a plain name whose joined path is in the tree |
| FileSystem.ListDir | toorpia/client.py:250 | listing succeeds exactly when the path is a directory |
| FileSystem.WriteFile | toorpia/client.py:158-159 | a write succeeds exactly when the path can be opened for writing, and then replaces that one path with the data |
| FileSystem.MakeDirs | toorpia/client.py:151 | the missing directories of the chain are created from the top down; it succeeds exactly when no directory of the chain is a regular file or missing where it cannot be created; a failure keeps exactly the directories created above the first blocked one; earlier entries never change; an existing chain leaves the tree as it was |
| FileSystem.MakeDirsKeepsCreatedAncestors | toorpia/client.py:151 | with `/x` creatable and `/x/y` not, the failure leaves `/x` behind |
| FileSystem.Enumerate | toorpia/client.py:154 | an entry order the caller does not control lists each element exactly once |
| Base64.Encode | toorpia/client.py:255 | the encoding has a length divisible by four, and is empty exactly for empty input |
| Base64.DecodeEncode | toorpia/client.py:255 | decoding what `b64encode` produced gives back the original bytes |
| Base64.EncodeDecode | toorpia/client.py:255 | a text the strict decoder accepts is exactly the `b64encode` form of what it yields, so the strict decoder accepts the canonical encodings only |
| Base64.LenientAgreesOnCanonical | toorpia/client.py:156 | `b64decode` returns what the strict decoder returns on every text the strict decoder accepts |
| Base64.LenientDecodeEncode | toorpia/client.py:156 | `b64decode` gives back the bytes of any `b64encode` output |
| Base64.LenientSkipsNewline | toorpia/client.py:156 | `b64decode` skips a trailing newline, which the strict decoder refuses |
| Base64.LenientDropsPadBits | toorpia/client.py:156 | `b64decode` drops bits the padding leaves over, which the strict decoder refuses |
| Base64.LenientRefusesNonAscii | toorpia/client.py:156 | `b64decode` refuses text with a character outside ASCII |
| Utf8.DecodeEncode | toorpia/client.py:156-159 | decoding the UTF-8 form of a text gives back the text |
| Utf8.EncodeDecode | toorpia/client.py:156-159 | bytes the strict decoder accepts are exactly the UTF-8 form of the decoded text, so writing it back restores them |
| Utf8.LossyAgrees | mcp/src/client/toorpia.ts:308 | on well-formed input Node's replacing decoder yields what the strict decoder yields |
| Utf8.LossyMarksDamage | mcp/src/client/toorpia.ts:308 | on ill-formed input the replacing decoder leaves a U+FFFD in the text |
| TsClient.GuardLog | mcp/src/client/toorpia.ts:18-25 | `ensureAuth` sends at most one login, none with a truthy cached key and none without an API key |
| TsClient.GuardError | mcp/src/client/toorpia.ts:18-33 | nothing is thrown with a cached key; a missing API key throws before any request; otherwise it succeeds exactly when the login is ok and carries a key |
| TsClient.GuardKey | mcp/src/client/toorpia.ts:18-33 | the key changes only to the key of a successful login, and never when the guard throws |
| TsClient.GuardPassesIffKeySet | mcp/src/client/toorpia.ts:26-32 | the guard lets a call through exactly when it leaves a usable key behind |
| TsClient.GuardNeverReauthenticates | mcp/src/client/toorpia.ts:19-32 | once a key is set, every later guard sends nothing, throws nothing and keeps it |
| TsClient.Client.constructor | mcp/src/index.ts:45-51 | a new client has the given API key, no session, no map number, no share URL, no add-plot number and has sent nothing |
| TsClient.Client.EnsureAuth | mcp/src/client/toorpia.ts:18-33 | logs the login the guard sends, reports what it throws, stores the resulting key, and succeeds exactly when a usable key is set |
| TsClient.Client.HeadersJSON | mcp/src/client/toorpia.ts:35-38 | the headers carry the session key when one is set; otherwise `Not authenticated` is thrown |
| TsClient.TsFitBody | mcp/src/client/toorpia.ts:57-67 | `randomSeed` appears exactly for a seed other than 42; `identnaParams` appears exactly when some identna field is given, with those fields; the option strings are `null` when not given; `label`, `tag` and `description` appear exactly when given |
| TsClient.IfGiven | mcp/src/client/toorpia.ts:102-105 | an optional number or flag is sent exactly when given |
| TsClient.TsAddplotBody | mcp/src/client/toorpia.ts:95-105 | the add-plot body has the table and the map number, the option strings as `null` when not given, and each detabn field exactly when given |
| TsClient.BuildAddplotBody | mcp/src/client/toorpia.ts:95-105 | the conditional field writes produce exactly that body |
| TsClient.SplitMapNo | mcp/src/client/toorpia.ts:96-97 | a truthy explicit number wins, otherwise a truthy cached one; the result is never a falsy number |
| TsClient.WaveformMapNo | mcp/src/client/toorpia.ts:238-239 | an explicit number is used whenever given, so an explicit 0 is refused; otherwise a truthy cached one |
| TsClient.MapNoRulesAgreeUnlessZero | mcp/src/client/toorpia.ts:238-239 | the waveform rule and the table rule pick the same number except for an explicit 0 |
| TsClient.Basename | mcp/src/client/toorpia.ts:184 | the upload's file name is a '/'-free suffix of the path |
| TsClient.BasenameFollowsLastSlash | mcp/src/client/toorpia.ts:184 | the file name is all of the path after its last '/': either the whole path or the suffix right after a '/' |
| TsClient.AttachFiles | mcp/src/client/toorpia.ts:244-251 | the file loop builds exactly the attachment specification |
| TsClient.AttachmentsSucceedIffFiles | mcp/src/client/toorpia.ts:179-186 | attaching succeeds exactly when every path is a regular file |
| TsClient.AttachmentsUploadEveryFile | mcp/src/client/toorpia.ts:179-186 | on success every file is uploaded in order, under its base name, with its bytes |
| TsClient.AttachmentsStopAtFirstBadPath | mcp/src/client/toorpia.ts:179-186 | a failure names the first path that is not a regular file: `File not found` when missing, a read error otherwise |
| TsClient.AttachmentsFailureSticks | mcp/src/client/toorpia.ts:244-247 | a failure on a prefix of the list is the failure of the whole list |
| TsClient.CollectMapData | mcp/src/client/toorpia.ts:331-344 | the upload keys are exactly the listed regular files whose names are not excluded, each mapped to the base64 of its bytes |
| Snapshot.TsPayloadFiltersPyPayload | mcp/src/client/toorpia.ts:331-344 | the TypeScript upload is the Python upload less the excluded names |
| TsClient.SaveEntries | mcp/src/client/toorpia.ts:306-314 | the download loop ends exactly as the stop-at-first-failure specification says |
| TsClient.SavedStopSticks | mcp/src/client/toorpia.ts:306-314 | a stop on a prefix of the entries is the stop of the whole list |
| Snapshot.TsExportStopsAtFirstFailure | mcp/src/client/toorpia.ts:306-314 | a stopped download names an entry whose write failed, after all earlier entries were written |
| Snapshot.TsExportKeepsOthers | mcp/src/client/toorpia.ts:306-314 | a completed TypeScript download changes no path that no entry names |
| Snapshot.TsExportStoresEveryEntry | mcp/src/client/toorpia.ts:306-314 | after a completed download every entry is on disk as the UTF-8 form of its lenient decoding, and for well-formed UTF-8 that is exactly the decoded bytes |
| TsClient.PrepareDir | mcp/src/client/toorpia.ts:301-303 | an existing path is used as it is; a missing one goes through the recursive creation, whose failure keeps the ancestors it created; earlier entries never change |
| TsClient.NumberOf | mcp/src/client/toorpia.ts:354-356 | the import returns a number exactly when the reply carries one |
| TsClient.FeaturesQuery | mcp/src/client/toorpia.ts:148-151 | the features query carries the t-score flag exactly when `use_tscore` is true |
| TsClient.Client.FitTransformSplit | mcp/src/client/toorpia.ts:41-79 | a guard failure is rethrown with nothing more sent; otherwise exactly one fit request with that body; an ok reply returns its data and sets `mapNo` and `shareUrl`; any other status throws and changes neither |
| TsClient.Client.AddplotSplit | mcp/src/client/toorpia.ts:82-122 | with no map number it throws before any add-plot request; otherwise exactly one request with the body above; only an ok reply sets `currentAddPlotNo` and `shareUrl` |
| TsClient.Client.Query | mcp/src/client/toorpia.ts:124-155 | each read-only call is one GET; a non-ok status throws; only `getAddplot` records the share URL |
| TsClient.Client.FitTransformWaveform | mcp/src/client/toorpia.ts:158-217 | a missing or unreadable file throws before any upload; otherwise exactly one upload of all files; an ok reply sets `mapNo` and `shareUrl` |
| TsClient.Client.AddplotWaveform | mcp/src/client/toorpia.ts:220-286 | a missing map number or a missing file throws before any upload; otherwise exactly one upload to that map number; only an ok reply sets `currentAddPlotNo` and `shareUrl` |
| TsClient.Client.ExportMap | mcp/src/client/toorpia.ts:289-317 | a non-ok reply throws and changes no file; an ok reply sets `shareUrl` and creates the directory when missing; a failed creation throws with the ancestors it created left in place; then entries are written until the first failure, which throws with the earlier files left in place |
| TsClient.Client.ImportMap | mcp/src/client/toorpia.ts:320-357 | a missing directory throws with no upload; otherwise one upload of the filtered files, with no checksum lookup; a non-ok reply throws |
| ToolCalls.QueryOf | mcp/src/index.ts:551-572 | each read-only tool sends its own query; `whoami` lists the maps; the features tool passes its t-score flag |
| ToolCalls.Perform | mcp/src/index.ts:537-594 | runs the client operation behind a tool; only an export changes the file system |
| McpServer.Respond | mcp/src/index.ts:533-614 | an unknown name or a failure outside `whoami` is an error result; `whoami` answers OK or NG without an error flag; mode "xy" answers the coordinates alone; any other success answers the full payload |
| McpServer.HandleCall | mcp/src/index.ts:533-614 | the result is `Respond` for the call's outcome; an unknown tool name touches neither the client nor the file system |
| McpServer.ServerAndToolsAgree | mcp/src/index.ts:536-613 | the server and the tool modules answer a success alike; they differ only on failures outside `whoami`, which the server flags as errors |
| CommonTools.ExtName | mcp/src/tools/common.ts:67 | the extension is empty or a '.' followed by no other '.' or '/', and is a proper suffix of the last path component; it is empty exactly when the last component is ".." or has no '.' after its first character |
| CommonTools.AsciiLower | mcp/src/tools/common.ts:67 | lower-casing changes exactly the ASCII capitals |
| CommonTools.CsvExtensionAnyCase | mcp/src/tools/common.ts:67-73 | the lower-cased extension is ".csv" exactly when it spells csv in any mix of cases |
| CommonTools.DetectFileType | mcp/src/tools/common.ts:51-110 | a missing path is `ok: false` with FILE_NOT_FOUND; ".csv" gives csv; ".wav" gives wav exactly for a regular file whose first four bytes read as ASCII "RIFF"; everything else is unknown with `ok: true` |
| CommonTools.CsvIgnoresContent | mcp/src/tools/common.ts:71-73 | a ".csv" path is classified without looking at its content |
| CommonTools.FailureCodesIdentifyTheTool | mcp/src/tools/common.ts:135-246 | each tool reports its own failure code, so a code names the tool that failed (the same catch blocks at mcp/src/tools/csv.ts:84-92, 110-118 and mcp/src/tools/wav.ts:43-51, 67-75) |
| CommonTools.Wrap | mcp/src/tools/common.ts:135-246 | a client failure becomes `{ok: false}` with the tool's code and reason and never escapes; `whoami` answers the session state; the addplot tool of `csv.ts` in mode "xy" answers the coordinates alone; any other success answers the payload (the wrappers of mcp/src/tools/csv.ts:77-118 and mcp/src/tools/wav.ts:31-76 follow the same pattern) |
| CommonTools.RunTool | mcp/src/tools/wav.ts:31-76 | with the WAV workflow switched off the waveform tools answer NOT_IMPLEMENTED without calling the client; every other call is run and wrapped |
| CsvTools.Code | mcp/src/types.ts:23-30 | the code is NOT_FOUND exactly for a missing file or no data, SCHEMA_NOT_INITIALIZED, UNKNOWN_COLUMN and RUNTIME_ERROR exactly for their own errors |
| CsvTools.Filter | mcp/src/tools/csv.ts:40 | `filter` keeps exactly the elements that pass |
| CsvTools.FilterKeepsAllIff | mcp/src/tools/csv.ts:40-41 | a filter keeps the whole input exactly when every element passes |
| CsvTools.NonEmptyValues | mcp/src/tools/csv.ts:36 | the non-empty values are exactly the values other than "", and there are as many as the input has non-empty entries |
| CsvTools.Utf16Length | mcp/src/tools/csv.ts:52 | a string's JavaScript `length` is between its number of code points and twice that |
| CsvTools.InferEmptyIsNone | mcp/src/tools/csv.ts:36-37 | with no non-empty value the type is none |
| CsvTools.InferNumeric | mcp/src/tools/csv.ts:40-45 | int exactly when every non-empty value is numeric and integral; float exactly when all are numeric and some is not integral |
| CsvTools.InferDate | mcp/src/tools/csv.ts:48-57 | date exactly when the values are not all numeric, all parse as dates, and one contains a separator or is longer than ten UTF-16 units |
| CsvTools.InferEnum | mcp/src/tools/csv.ts:60-65 | enum exactly when neither numeric nor date, with at most ten distinct values and fewer than half as many as the non-empty count |
| CsvTools.DefaultWeight | mcp/src/tools/csv.ts:68-74 | 1.0 exactly for a used float, int or enum column, 0.0 otherwise |
| CsvTools.ColumnValues | mcp/src/tools/csv.ts:153 | a column's values are exactly the defined fields of that name across the records |
| CsvTools.SliceEnd | mcp/src/tools/csv.ts:149 | `slice(0, n)` keeps the first n records, all of them when n is larger, and counts a negative n from the end |
| CsvTools.BuildSchema | mcp/src/tools/csv.ts:148-171 | the row count is the record count; the columns are the first record's keys in order, all used, each typed by inferring from that column's values, weighted 1.0 or 0.0 by that type, without description; the sample is the first `nRows` rows (default 5) in column order |
| CsvTools.PreviewWeightsFollowTypes | mcp/src/tools/csv.ts:152-163 | after a preview every column is used and weighs 1.0 exactly when its type is float, int or enum, 0.0 otherwise |
| CsvTools.PreviewOf | mcp/src/tools/csv.ts:124-191 | a missing path is NOT_FOUND; a directory is a runtime error; a parse error is a runtime error carrying the parser's message; a file without records is NOT_FOUND (no data); a file that parses to records gives exactly the schema built from them, and a success comes only from there |
| CsvTools.SchemaStore.constructor | mcp/src/tools/csv.ts:25 | the store starts empty |
| CsvTools.SchemaStore.Preview | mcp/src/tools/csv.ts:124-191 | a success replaces whatever was stored under the path; any error leaves the store unchanged |
| CsvTools.FindIndex | mcp/src/tools/csv.ts:210 | no index exactly when no column has the name; otherwise the first column with that name |
| CsvTools.Update | mcp/src/tools/csv.ts:219-222 | a patch replaces only the supplied fields and never the name |
| CsvTools.ApplyPatches | mcp/src/tools/csv.ts:208-225 | patches in order keep the number of columns, and the count applied never exceeds the patches |
| CsvTools.PatchesKeepNames | mcp/src/tools/csv.ts:208-225 | patching never renames, adds or removes a column |
| CsvTools.PatchNames | mcp/src/tools/csv.ts:206-224 | the reported names are the patches' column names, in patch order |
| CsvTools.OnePatchChangesOnlyItsColumn | mcp/src/tools/csv.ts:209-222 | one patch changes the supplied fields of the first column with its name and leaves every other column as it was |
| CsvTools.PatchFailureSticks | mcp/src/tools/csv.ts:212-216 | once an unknown column has stopped the run, later patches change nothing |
| CsvTools.PatchesApplyAllIffKnown | mcp/src/tools/csv.ts:208-216 | every patch is applied exactly when each one names a known column |
| CsvTools.PatchesStopAtFirstUnknown | mcp/src/tools/csv.ts:208-216 | a run that stops does so at the first patch naming an unknown column, with the patches before it applied |
| CsvTools.PatchesKeepWeights | mcp/src/tools/csv.ts:219-222 | patches that supply no weight leave every weight as it was, since a type change never recomputes it |
| CsvTools.SchemaStore.ApplySchemaPatch | mcp/src/tools/csv.ts:194-242 | no stored schema gives SCHEMA_NOT_INITIALIZED and changes nothing; otherwise the stored columns become the patched ones, with the names in patch order on success, and on an unknown column UNKNOWN_COLUMN with the earlier patches kept in the store |
| CsvTools.SchemaStore.GetSchema | mcp/src/tools/csv.ts:245-269 | the stored schema exactly when there is one, SCHEMA_NOT_INITIALIZED otherwise |
| CsvTools.DropColumns | mcp/src/tools/csv.ts:285-287 | the dropped names are exactly those of columns that are unused or weigh 0 |
| CsvTools.DropColumnsIsSubsequence | mcp/src/tools/csv.ts:285-287 | dropped columns appear in schema order |
| CsvTools.PreviewDropsDatesAndUntyped | mcp/src/tools/csv.ts:285-287 | straight after a preview the runner drops exactly the date and untyped columns |
| CsvTools.SchemaStore.GenerateRunner | mcp/src/tools/csv.ts:272-345 | with a stored schema the drop list is its unused or zero-weight columns and the script path is the one given; SCHEMA_NOT_INITIALIZED otherwise |

## Left out

- HTTP transport (`requests`, `fetch`, `FormData`, `Blob`) and the server. Replies are inputs from an oracle and requests are entries in a log. Status texts and response bodies of errors appear only as the status.
- Message texts of errors and of `print`/`console.error`, the `logTool` timing, and the `API_URL` text in the `whoami` answer. They are not part of any decision.
- MD5 and Node's `Buffer.from(s, 'base64')` are parameters. Equal input gives an equal checksum; nothing is claimed about collisions. Node's decoder is lenient, and its exact leniency is not modelled.
- The waveform form fields (`mkfftseg_*`, `identna_*`, `detabn_*`, `label`, `tag`, `description` of the multipart upload). The upload is modelled as its files and map number only.
- pandas `to_json`, NumPy conversion and JSON parsing. A table is a `Frame`, and a reply is already parsed; replies that are not JSON or lack the fields read are not modelled, except the `mapNo` key the Python import and comparison read.
- `list_map`, `list_addplots` and `get_addplot` of the Python client, and the `download_map`/`upload_map` aliases. They are single guarded GETs like the TypeScript `Query`, and the aliases are the same methods.
- `get_api_key`, environment variables and `API_URL`. The API key is a constructor argument, and `ENABLE_WAV` is a boolean parameter of `CommonTools.RunTool`.
- `path.resolve` and the general `path.join`/`os.path.join` normalisation. Paths are absolute '/'-joined strings; `FileSystem.PyJoin` covers `os.path.join` for the names a directory can hold.
- `os.fsync`/`flush` and text-mode newline translation. A write stores the UTF-8 bytes of the text.
- The order of `Object.keys` for integer-like names. Object entries and directory listings arrive in an order the model leaves open (`FileSystem.Enumerate`), and every property holds for any such order.
- `locateFile`, `server.ts` (handler-map merge), the prompts and the tool definition lists. They are static text and dispatch.
- `csvRunRunner`: it runs a `python3` subprocess. The script text of `csvGenerateRunner` and the schema `description` sentence are left out, since the script matters only through `DROP_COLUMNS`.
- The `csv-parse` library, `Number()`, `Number.isInteger` and `Date.parse`. They are parameters (`parse`, `Parsers`), so type inference is proved for any behaviour of them.
- Non-integral or non-numeric `nRows` and `random_seed`. Both are integers in the model.
- The catch-all `DETECT_ERROR` and `RUNTIME_ERROR` answers for exceptions the model's operations cannot raise. The ones it can raise (reading a directory in `csvPreview`, a parse error) are modelled.
- Aliasing of the stored schema. The store holds values; `ApplySchemaPatch` writes the patched columns back after each patch, which is what the in-place mutation of the shared object amounts to.
- ToolCalls.Perform: states only that it changes nothing but the client and, for an export, the file system. The outcome of each tool is what the contract of the client method it calls states.
- Snapshot.PyExportStoresEveryGoodEntry: assumes plain, pairwise different entry names. An absolute name, or one holding '/', is written where `os.path.join` puts it, and a repeated name keeps the last write. `Snapshot.TsExportStoresEveryEntry` assumes the same.
- PyClient.Client.CalculateChecksum: takes the directory path literally. `glob` reads `*`, `?` and `[...]` in it as pattern syntax, so for `/m/run[1]` it hashes the files of `/m/run1`. Every regular file is readable in the model, so the `PermissionError` that `open` raises for an unreadable file (toorpia/client.py:270) is not modelled.
- PyClient.Client.ReadMapData: every regular file is readable in the model; the `PermissionError` for an unreadable file (toorpia/client.py:253) is not modelled.
- TsClient.CollectMapData: every regular file is readable in the model; the read error for an unreadable file (mcp/src/client/toorpia.ts:341) is not modelled.
- TsClient.AttachFiles: a path that is a regular file is always readable in the model; the read error for an unreadable file (mcp/src/client/toorpia.ts:183 and 248) is not modelled. A path that is not a regular file does throw.
- CommonTools.AsciiLower: lowers only the ASCII capitals, where JavaScript's `toLowerCase` (mcp/src/tools/common.ts:67) lowers every cased capital; this changes only the extension quoted in the reason for an unknown file (`/d/x.ÄB` is reported with `.Äb`, not `.äb`), never the detected kind, since no non-ASCII capital other than U+0130 and U+212A lowers to an ASCII letter, and neither lowers to the letters of `csv` or `wav`.
- CsvTools.PreviewOf: a regular file is always readable in the model; the `RUNTIME_ERROR` for an unreadable file (mcp/src/tools/csv.ts:135) is not modelled. A directory does give it.
- CommonTools.DetectFileType: the header read of a regular ".wav" file never fails in the model. In the source an unreadable file is caught (mcp/src/tools/common.ts:77-88) and classified unknown, so an unreadable file with a RIFF header is unknown there and wav in the model.
- Concurrency and async scheduling. Each async method is one sequential step.
