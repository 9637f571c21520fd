/**
 * The CSV schema workflow of the MCP server: column type inference, the
 * default weights, the schema store keyed by path, in-place schema
 * patches, and the columns a generated runner drops.
 */
module CsvTools {
  import opened Wrappers
  import opened FileSystem
  import Utf8

  // ---------------------------------------------------------------- schema types

  datatype ColType = Float | Int | Enum | Date | NoType

  /** A column of the schema: its inferred or patched type, weight and use flag. */
  datatype ColSpec = ColSpec(name: string, typ: ColType, weight: real, use: bool, description: Option<string>)

  /** The schema of one CSV file: its columns, record count and the first rows as a sample. */
  datatype Schema = Schema(filePath: Path, columns: seq<ColSpec>, rowCount: nat, sampleData: seq<seq<Option<string>>>)

  /** A parsed record: its field names in key order and the value of each. */
  datatype Record = Record(keys: seq<string>, fields: map<string, string>)

  /**
   * The JavaScript conversions the inference relies on: whether `Number(v)`
   * is not NaN, whether `Number.isInteger(Number(v))` holds, and whether
   * `Date.parse(v)` is not NaN.
   */
  datatype Parsers = Parsers(numeric: string -> bool, integral: string -> bool, date: string -> bool)

  datatype Cause = Unreadable(path: Path) | ParseFailed(message: string)

  datatype CsvError =
    | FileNotFound(path: Path)
    | NoData
    | RuntimeError(cause: Cause)
    | SchemaNotInitialized(path: Path)
    | UnknownColumn(name: string)

  /** The `code` of the `{ok: false}` answer for each error. */
  function Code(e: CsvError): (code: string)
    ensures code == "NOT_FOUND" <==> e.FileNotFound? || e.NoData?
    ensures code == "SCHEMA_NOT_INITIALIZED" <==> e.SchemaNotInitialized?
    ensures code == "UNKNOWN_COLUMN" <==> e.UnknownColumn?
    ensures code == "RUNTIME_ERROR" <==> e.RuntimeError?
  {
    match e
    case FileNotFound(_) => "NOT_FOUND"
    case NoData => "NOT_FOUND"
    case RuntimeError(_) => "RUNTIME_ERROR"
    case SchemaNotInitialized(_) => "SCHEMA_NOT_INITIALIZED"
    case UnknownColumn(_) => "UNKNOWN_COLUMN"
  }

  // ---------------------------------------------------------------- filters

  /** `Array.prototype.filter`: the elements that pass, in order. */
  function Filter(s: seq<string>, keep: string -> bool): (r: seq<string>)
    ensures |r| <= |s|
    ensures forall x :: x in r <==> x in s && keep(x)
  {
    if |s| == 0 then []
    else
      var rest := Filter(s[1..], keep);
      assert forall x :: x in s <==> x == s[0] || x in s[1..];
      if keep(s[0]) then [s[0]] + rest else rest
  }

  /** A filter keeps its whole input exactly when every element passes. */
  lemma {:induction false} FilterKeepsAllIff(s: seq<string>, keep: string -> bool)
    ensures |Filter(s, keep)| == |s| <==> forall x :: x in s ==> keep(x)
    decreases |s|
  {
    if |s| > 0 {
      FilterKeepsAllIff(s[1..], keep);
      assert forall x :: x in s <==> x == s[0] || x in s[1..];
    }
  }

  /** The values that are not the empty string, in order. */
  function NonEmptyValues(values: seq<string>): (r: seq<string>)
    ensures forall v :: v in r <==> v in values && v != ""
    ensures |r| == |values| - multiset(values)[""]
  {
    if |values| == 0 then []
    else
      assert values == [values[0]] + values[1..];
      assert forall x :: x in values <==> x == values[0] || x in values[1..];
      var rest := NonEmptyValues(values[1..]);
      if values[0] != "" then [values[0]] + rest else rest
  }

  // ---------------------------------------------------------------- inference

  /** The characters `\s` matches in a JavaScript regular expression. */
  predicate JsSpace(c: char) {
    var n := c as int;
    n == 0x09 || n == 0x0A || n == 0x0B || n == 0x0C || n == 0x0D || n == 0x20 || n == 0xA0
    || n == 0x1680 || (0x2000 <= n <= 0x200A) || n == 0x2028 || n == 0x2029 || n == 0x202F
    || n == 0x205F || n == 0x3000 || n == 0xFEFF
  }

  /** The `length` of a JavaScript string: its UTF-16 code units. */
  function Utf16Length(s: string): (n: nat)
    ensures |s| <= n <= 2 * |s|
  {
    if |s| == 0 then 0 else (if s[0] as int > 0xFFFF then 2 else 1) + Utf16Length(s[1..])
  }

  /** A separator `-`, `/`, `:` or white space, or more than ten UTF-16 units. */
  predicate DateLike(v: string) {
    (exists i :: 0 <= i < |v| && (v[i] == '-' || v[i] == '/' || v[i] == ':' || JsSpace(v[i])))
    || Utf16Length(v) > 10
  }

  /** `inferColumnType`, following the filters and counts of the source. */
  function InferColumnType(values: seq<string>, p: Parsers): ColType {
    var nonEmpty := NonEmptyValues(values);
    if |nonEmpty| == 0 then NoType
    else
      var numeric := Filter(nonEmpty, p.numeric);
      if |numeric| == |nonEmpty| then
        if forall v :: v in numeric ==> p.integral(v) then Int else Float
      else
        var dates := Filter(nonEmpty, p.date);
        if |dates| == |nonEmpty| && |nonEmpty| > 0 && exists v :: v in nonEmpty && DateLike(v) then Date
        else
          var unique := set v | v in nonEmpty;
          if |unique| <= 10 && (|unique| as real) < (|nonEmpty| as real) * 0.5 then Enum else NoType
  }

  predicate AllNonEmpty(values: seq<string>, test: string -> bool) {
    forall v :: v in values && v != "" ==> test(v)
  }

  predicate AnyNonEmpty(values: seq<string>) {
    exists v :: v in values && v != ""
  }

  /** The distinct non-empty values. */
  function Distinct(values: seq<string>): set<string> {
    set v | v in values && v != ""
  }

  /** The tests the inference applies before the enum rule, each stated on the values themselves. */
  predicate IsNumeric(values: seq<string>, p: Parsers) {
    AnyNonEmpty(values) && AllNonEmpty(values, p.numeric)
  }

  predicate IsDate(values: seq<string>, p: Parsers) {
    AnyNonEmpty(values) && AllNonEmpty(values, p.date) && exists v :: v in values && v != "" && DateLike(v)
  }

  /** Only empty strings: no type. */
  lemma InferEmptyIsNone(values: seq<string>, p: Parsers)
    requires !AnyNonEmpty(values)
    ensures InferColumnType(values, p) == NoType
  {
    assert |NonEmptyValues(values)| == 0 by {
      if |NonEmptyValues(values)| > 0 {
        assert NonEmptyValues(values)[0] in NonEmptyValues(values);
      }
    }
  }

  /** The numeric test comes first: int when every value is integral, float otherwise. */
  lemma InferNumeric(values: seq<string>, p: Parsers)
    ensures InferColumnType(values, p) == Int <==> IsNumeric(values, p) && AllNonEmpty(values, p.integral)
    ensures InferColumnType(values, p) == Float <==> IsNumeric(values, p) && !AllNonEmpty(values, p.integral)
  {
    var nonEmpty := NonEmptyValues(values);
    FilterKeepsAllIff(nonEmpty, p.numeric);
    assert AnyNonEmpty(values) <==> |nonEmpty| > 0 by {
      if |nonEmpty| > 0 {
        assert nonEmpty[0] in nonEmpty;
      }
    }
    if |Filter(nonEmpty, p.numeric)| == |nonEmpty| {
      assert forall x :: x in nonEmpty ==> x in Filter(nonEmpty, p.numeric);
    }
  }

  /** Date comes next: every value parses as a date and one of them looks like one. */
  lemma InferDate(values: seq<string>, p: Parsers)
    ensures InferColumnType(values, p) == Date <==> !IsNumeric(values, p) && IsDate(values, p)
  {
    var nonEmpty := NonEmptyValues(values);
    FilterKeepsAllIff(nonEmpty, p.numeric);
    FilterKeepsAllIff(nonEmpty, p.date);
    assert AnyNonEmpty(values) <==> |nonEmpty| > 0 by {
      if |nonEmpty| > 0 {
        assert nonEmpty[0] in nonEmpty;
      }
    }
  }

  /** Enum last: at most ten distinct values, fewer than half the non-empty count. */
  lemma InferEnum(values: seq<string>, p: Parsers)
    ensures InferColumnType(values, p) == Enum <==>
      && AnyNonEmpty(values) && !IsNumeric(values, p) && !IsDate(values, p)
      && |Distinct(values)| <= 10 && 2 * |Distinct(values)| < |values| - multiset(values)[""]
  {
    var nonEmpty := NonEmptyValues(values);
    FilterKeepsAllIff(nonEmpty, p.numeric);
    FilterKeepsAllIff(nonEmpty, p.date);
    assert AnyNonEmpty(values) <==> |nonEmpty| > 0 by {
      if |nonEmpty| > 0 {
        assert nonEmpty[0] in nonEmpty;
      }
    }
    assert (set v | v in nonEmpty) == Distinct(values);
  }

  /** `getDefaultWeight`: 1.0 for a used float, int or enum column, 0.0 for anything else. */
  function DefaultWeight(typ: ColType, use: bool): (w: real)
    ensures w == 1.0 <==> use && (typ == Float || typ == Int || typ == Enum)
    ensures w == 0.0 <==> !(use && (typ == Float || typ == Int || typ == Enum))
  {
    if use && (typ == Float || typ == Int || typ == Enum) then 1.0 else 0.0
  }

  // ---------------------------------------------------------------- preview

  /** `record[name]`: `None` where the record has no such field. */
  function Cell(r: Record, name: string): Option<string> {
    if name in r.fields then Some(r.fields[name]) else None
  }

  /** The defined values of one column over all records, in record order. */
  function ColumnValues(records: seq<Record>, name: string): (vs: seq<string>)
    ensures forall v :: v in vs <==> exists r :: r in records && Cell(r, name) == Some(v)
  {
    if |records| == 0 then []
    else
      assert forall r :: r in records <==> r == records[0] || r in records[1..];
      var rest := ColumnValues(records[1..], name);
      match Cell(records[0], name)
      case None => rest
      case Some(v) => [v] + rest
  }

  /** The end of `slice(0, n)` on a sequence of length `len`: a negative `n` counts from the end. */
  function SliceEnd(len: nat, n: int): (e: nat)
    ensures e <= len
    ensures n >= 0 ==> e == if n < len then n else len
    ensures n < 0 ==> e == if len + n > 0 then len + n else 0
  {
    if n >= 0 then (if n < len then n else len)
    else if len + n > 0 then len + n else 0
  }

  /** The column a preview infers: used, weighted by its type, without a description. */
  function InferColumn(records: seq<Record>, name: string, p: Parsers): ColSpec {
    var t := InferColumnType(ColumnValues(records, name), p);
    ColSpec(name, t, DefaultWeight(t, true), true, None)
  }

  /** The schema a preview builds from the parsed records; the columns are the first record's keys. */
  function BuildSchema(path: Path, records: seq<Record>, nRows: Option<int>, p: Parsers): (s: Schema)
    requires |records| > 0
    ensures s.filePath == path && s.rowCount == |records|
    ensures |s.columns| == |records[0].keys|
    ensures forall j :: 0 <= j < |s.columns| ==> s.columns[j].name == records[0].keys[j] && s.columns[j].use
    ensures forall j :: 0 <= j < |s.columns| ==>
      s.columns[j].typ == InferColumnType(ColumnValues(records, records[0].keys[j]), p) &&
      s.columns[j].weight == DefaultWeight(s.columns[j].typ, true) && s.columns[j].description.None?
    ensures |s.sampleData| == SliceEnd(|records|, if nRows.Some? then nRows.value else 5)
    ensures forall i, j :: 0 <= i < |s.sampleData| && 0 <= j < |records[0].keys| ==>
      |s.sampleData[i]| == |records[0].keys| && s.sampleData[i][j] == Cell(records[i], records[0].keys[j])
  {
    var names := records[0].keys;
    var sample := records[..SliceEnd(|records|, if nRows.Some? then nRows.value else 5)];
    Schema(path, seq(|names|, j requires 0 <= j < |names| => InferColumn(records, names[j], p)), |records|,
           seq(|sample|, i requires 0 <= i < |sample| => seq(|names|, j requires 0 <= j < |names| => Cell(sample[i], names[j]))))
  }

  /** Right after a preview a column weighs 1.0 exactly when its type is float, int or enum. */
  lemma PreviewWeightsFollowTypes(path: Path, records: seq<Record>, nRows: Option<int>, p: Parsers)
    requires |records| > 0
    ensures forall c :: c in BuildSchema(path, records, nRows, p).columns ==>
      c.use && (c.weight == 1.0 <==> c.typ == Float || c.typ == Int || c.typ == Enum) && (c.weight == 0.0 || c.weight == 1.0)
  {
  }

  /**
   * `csvPreview` on the file system and a parser: a missing path, a file
   * that cannot be read, a parse error and a file without records are
   * errors; anything else is a schema.
   */
  function PreviewOf(fs: Fs, path: Path, nRows: Option<int>, parse: string -> Result<seq<Record>, string>, p: Parsers): (r: Result<Schema, CsvError>)
    ensures path !in fs.tree <==> r == Failure(FileNotFound(path))
    ensures r.Failure? && r.error.RuntimeError? && r.error.cause.Unreadable? <==> path in fs.tree && fs.tree[path].Dir?
    ensures r == Failure(NoData) <==> IsFile(fs, path) && parse(Utf8.DecodeLossy(fs.tree[path].content)) == Success([])
    ensures r.Success? ==> IsFile(fs, path) && r.value.filePath == path && r.value.rowCount > 0
    ensures IsFile(fs, path) && parse(Utf8.DecodeLossy(fs.tree[path].content)).Failure? ==>
      r == Failure(RuntimeError(ParseFailed(parse(Utf8.DecodeLossy(fs.tree[path].content)).error)))
    ensures IsFile(fs, path) && parse(Utf8.DecodeLossy(fs.tree[path].content)).Success?
      && |parse(Utf8.DecodeLossy(fs.tree[path].content)).value| > 0
      ==> r == Success(BuildSchema(path, parse(Utf8.DecodeLossy(fs.tree[path].content)).value, nRows, p))
  {
    if path !in fs.tree then Failure(FileNotFound(path))
    else match fs.tree[path]
      case Dir => Failure(RuntimeError(Unreadable(path)))
      case File(content) =>
        match parse(Utf8.DecodeLossy(content))
        case Failure(m) => Failure(RuntimeError(ParseFailed(m)))
        case Success(records) =>
          if |records| == 0 then Failure(NoData) else Success(BuildSchema(path, records, nRows, p))
  }

  // ---------------------------------------------------------------- patches

  /** The fields a patch supplies; an absent field is left as it is. */
  datatype Updates = Updates(typ: Option<ColType>, weight: Option<real>, use: Option<bool>, description: Option<string>)

  datatype Patch = Patch(columnName: string, updates: Updates)

  /** Some column has this name. */
  predicate HasColumn(cols: seq<ColSpec>, name: string) {
    exists j :: 0 <= j < |cols| && cols[j].name == name
  }

  /** The same column names in the same order. */
  predicate SameNames(a: seq<ColSpec>, b: seq<ColSpec>) {
    |a| == |b| && forall j :: 0 <= j < |a| ==> a[j].name == b[j].name
  }

  lemma SameNamesHaveSameColumns(a: seq<ColSpec>, b: seq<ColSpec>, name: string)
    requires SameNames(a, b)
    ensures HasColumn(a, name) <==> HasColumn(b, name)
  {
    if HasColumn(a, name) {
      var j :| 0 <= j < |a| && a[j].name == name;
      assert b[j].name == name;
    }
    if HasColumn(b, name) {
      var j :| 0 <= j < |b| && b[j].name == name;
      assert a[j].name == name;
    }
  }

  /** `findIndex` on the column name: the first column so named. */
  function FindIndex(cols: seq<ColSpec>, name: string): (r: Option<nat>)
    ensures r.None? <==> !HasColumn(cols, name)
    ensures r.Some? ==> r.value < |cols| && cols[r.value].name == name && forall j :: 0 <= j < r.value ==> cols[j].name != name
  {
    if |cols| == 0 then None
    else if cols[0].name == name then Some(0)
    else
      assert HasColumn(cols, name) <==> HasColumn(cols[1..], name) by {
        if HasColumn(cols, name) {
          var j :| 0 <= j < |cols| && cols[j].name == name;
          assert cols[1..][j - 1].name == name;
        }
        if HasColumn(cols[1..], name) {
          var j :| 0 <= j < |cols[1..]| && cols[1..][j].name == name;
          assert cols[j + 1].name == name;
        }
      }
      match FindIndex(cols[1..], name)
      case None => None
      case Some(k) => Some(k + 1)
  }

  /** A column with the supplied fields replaced: the name never changes. */
  function Update(c: ColSpec, u: Updates): (r: ColSpec)
    ensures r.name == c.name
    ensures u.typ.None? ==> r.typ == c.typ
    ensures u.weight.None? ==> r.weight == c.weight
    ensures u.use.None? ==> r.use == c.use
    ensures u.description.None? ==> r.description == c.description
    ensures r == ColSpec(c.name, u.typ.value, u.weight.value, u.use.value, u.description) <== u.typ.Some? && u.weight.Some? && u.use.Some? && u.description.Some?
  {
    ColSpec(c.name,
            if u.typ.Some? then u.typ.value else c.typ,
            if u.weight.Some? then u.weight.value else c.weight,
            if u.use.Some? then u.use.value else c.use,
            if u.description.Some? then u.description else c.description)
  }

  /** The columns after the patches and how many of them were applied before an unknown column stopped the run. */
  datatype PatchRun = PatchRun(columns: seq<ColSpec>, applied: nat)

  /** One patch on top of a run that has applied `n` patches: applied unless the run has stopped or the column is unknown. */
  function Step(prev: PatchRun, patch: Patch, n: nat): PatchRun {
    if prev.applied < n then prev
    else match FindIndex(prev.columns, patch.columnName)
      case None => prev
      case Some(i) =>
        PatchRun(prev.columns[i := Update(prev.columns[i], patch.updates)], n + 1)
  }

  /** Patches in order; the first one naming an unknown column ends the run. */
  function ApplyPatches(cols: seq<ColSpec>, ps: seq<Patch>): (run: PatchRun)
    ensures run.applied <= |ps| && |run.columns| == |cols|
    decreases |ps|
  {
    if |ps| == 0 then PatchRun(cols, 0)
    else Step(ApplyPatches(cols, ps[..|ps| - 1]), ps[|ps| - 1], |ps| - 1)
  }

  /** Patches never rename, add or remove a column. */
  lemma {:induction false} PatchesKeepNames(cols: seq<ColSpec>, ps: seq<Patch>)
    ensures SameNames(ApplyPatches(cols, ps).columns, cols)
    decreases |ps|
  {
    if |ps| > 0 {
      var prev := ApplyPatches(cols, ps[..|ps| - 1]);
      PatchesKeepNames(cols, ps[..|ps| - 1]);
      if prev.applied == |ps| - 1 {
        match FindIndex(prev.columns, ps[|ps| - 1].columnName)
        case None =>
        case Some(i) =>
          assert SameNames(prev.columns[i := Update(prev.columns[i], ps[|ps| - 1].updates)], prev.columns);
      }
    }
  }

  /** The names a successful patch call reports, in patch order. */
  function PatchNames(ps: seq<Patch>): (names: seq<string>)
    ensures |names| == |ps| && forall k :: 0 <= k < |ps| ==> names[k] == ps[k].columnName
  {
    seq(|ps|, k requires 0 <= k < |ps| => ps[k].columnName)
  }

  /** Appending the next patch's name keeps the reported names in patch order. */
  lemma NamesGrow(names: seq<string>, ps: seq<Patch>, i: nat)
    requires i < |ps| && |names| == i && forall k :: 0 <= k < i ==> names[k] == ps[k].columnName
    ensures var longer := names + [ps[i].columnName];
      |longer| == i + 1 && forall k :: 0 <= k < i + 1 ==> longer[k] == ps[k].columnName
  {
  }

  /** A single patch changes the supplied fields of the first column with its name, and nothing else. */
  lemma {:induction false} OnePatchChangesOnlyItsColumn(cols: seq<ColSpec>, patch: Patch, i: nat)
    requires FindIndex(cols, patch.columnName) == Some(i)
    ensures ApplyPatches(cols, [patch]).applied == 1
    ensures forall j :: 0 <= j < |cols| && j != i ==> ApplyPatches(cols, [patch]).columns[j] == cols[j]
    ensures ApplyPatches(cols, [patch]).columns[i] == Update(cols[i], patch.updates)
  {
    assert [patch][..0] == [];
  }

  /** Once an unknown column has stopped the run, later patches change nothing. */
  lemma {:induction false} PatchFailureSticks(cols: seq<ColSpec>, ps: seq<Patch>, n: nat)
    requires n <= |ps| && ApplyPatches(cols, ps[..n]).applied < n
    ensures ApplyPatches(cols, ps) == ApplyPatches(cols, ps[..n])
    decreases |ps| - n
  {
    if n < |ps| {
      assert ps[..n + 1][..n] == ps[..n];
      PatchFailureSticks(cols, ps, n + 1);
    } else {
      assert ps[..n] == ps;
    }
  }

  /** The first `n` patches all name columns of `cols`. */
  predicate KnownUpTo(cols: seq<ColSpec>, ps: seq<Patch>, n: nat)
    requires n <= |ps|
  {
    forall k :: 0 <= k < n ==> HasColumn(cols, ps[k].columnName)
  }

  lemma KnownUpToStep(cols: seq<ColSpec>, ps: seq<Patch>, n: nat)
    requires 0 < n <= |ps|
    ensures KnownUpTo(cols, ps, n) <==> KnownUpTo(cols, ps, n - 1) && HasColumn(cols, ps[n - 1].columnName)
  {
    if KnownUpTo(cols, ps, n - 1) && HasColumn(cols, ps[n - 1].columnName) {
      forall k | 0 <= k < n
        ensures HasColumn(cols, ps[k].columnName)
      {
        if k < n - 1 {
          assert HasColumn(cols, ps[k].columnName);
        }
      }
    }
  }

  /** One more patch: applied when its column is known and the run has not stopped, otherwise the run is unchanged. */
  lemma PatchStep(cols: seq<ColSpec>, ps: seq<Patch>, n: nat)
    requires n < |ps|
    ensures ApplyPatches(cols, ps[..n + 1]) == Step(ApplyPatches(cols, ps[..n]), ps[n], n)
  {
    assert ps[..n + 1][..n] == ps[..n];
  }

  /** The run applies all of the first `n` patches exactly when each of them names a known column. */
  lemma {:induction false} PatchesApplyAllIffKnown(cols: seq<ColSpec>, ps: seq<Patch>, n: nat)
    requires n <= |ps|
    ensures ApplyPatches(cols, ps[..n]).applied == n <==> KnownUpTo(cols, ps, n)
    decreases n
  {
    if n > 0 {
      PatchesApplyAllIffKnown(cols, ps, n - 1);
      PatchStep(cols, ps, n - 1);
      PatchesKeepNames(cols, ps[..n - 1]);
      var prev := ApplyPatches(cols, ps[..n - 1]);
      var run := ApplyPatches(cols, ps[..n]);
      var known := HasColumn(cols, ps[n - 1].columnName);
      SameNamesHaveSameColumns(prev.columns, cols, ps[n - 1].columnName);
      KnownUpToStep(cols, ps, n);
      assert run == Step(prev, ps[n - 1], n - 1);
      if prev.applied == n - 1 {
        assert FindIndex(prev.columns, ps[n - 1].columnName).None? <==> !known;
      }
    }
  }

  /**
   * A run that stops does so at the first patch naming an unknown column,
   * and the patches before it stay applied.
   */
  lemma {:induction false} PatchesStopAtFirstUnknown(cols: seq<ColSpec>, ps: seq<Patch>, n: nat)
    requires n <= |ps|
    ensures var run := ApplyPatches(cols, ps[..n]);
      run.applied < n ==>
        && !HasColumn(cols, ps[run.applied].columnName)
        && KnownUpTo(cols, ps, run.applied)
        && ApplyPatches(cols, ps[..run.applied]) == PatchRun(run.columns, run.applied)
    decreases n
  {
    if n > 0 {
      var prev := ApplyPatches(cols, ps[..n - 1]);
      var run := ApplyPatches(cols, ps[..n]);
      PatchStep(cols, ps, n - 1);
      PatchesKeepNames(cols, ps[..n - 1]);
      if prev.applied < n - 1 {
        PatchesStopAtFirstUnknown(cols, ps, n - 1);
      } else if run.applied < n {
        PatchesApplyAllIffKnown(cols, ps, n - 1);
        SameNamesHaveSameColumns(prev.columns, cols, ps[n - 1].columnName);
        assert run == prev;
      }
    }
  }

  /** Patches that supply no weight leave every weight as it was: a type change never recomputes it. */
  lemma {:induction false} PatchesKeepWeights(cols: seq<ColSpec>, ps: seq<Patch>)
    requires forall k :: 0 <= k < |ps| ==> ps[k].updates.weight.None?
    ensures forall j :: 0 <= j < |cols| ==> ApplyPatches(cols, ps).columns[j].weight == cols[j].weight
    decreases |ps|
  {
    if |ps| > 0 {
      var init := ps[..|ps| - 1];
      assert forall k :: 0 <= k < |init| ==> init[k] == ps[k];
      PatchesKeepWeights(cols, init);
    }
  }

  // ---------------------------------------------------------------- runner

  predicate Dropped(c: ColSpec) {
    !c.use || c.weight == 0.0
  }

  /** `DROP_COLUMNS`: the names of the unused or zero-weight columns, in schema order. */
  function DropColumns(cols: seq<ColSpec>): (names: seq<string>)
    ensures |names| <= |cols|
    ensures forall n :: n in names <==> exists c :: c in cols && c.name == n && Dropped(c)
  {
    if |cols| == 0 then []
    else
      assert forall c :: c in cols <==> c == cols[0] || c in cols[1..];
      (if Dropped(cols[0]) then [cols[0].name] else []) + DropColumns(cols[1..])
  }

  /** Keeping the dropped columns keeps the order: dropping a column before any other keeps it first. */
  lemma {:induction false} DropColumnsIsSubsequence(cols: seq<ColSpec>, i: nat, j: nat)
    requires i < j < |cols| && Dropped(cols[i]) && Dropped(cols[j])
    ensures exists a, b :: 0 <= a < b < |DropColumns(cols)| && DropColumns(cols)[a] == cols[i].name && DropColumns(cols)[b] == cols[j].name
    decreases |cols|
  {
    var rest := DropColumns(cols[1..]);
    if i == 0 {
      assert cols[j] in cols[1..] && cols[1..][j - 1] == cols[j];
      assert cols[j].name in rest;
      var b :| 0 <= b < |rest| && rest[b] == cols[j].name;
      assert DropColumns(cols) == [cols[0].name] + rest;
      assert DropColumns(cols)[0] == cols[i].name && DropColumns(cols)[b + 1] == cols[j].name;
    } else {
      assert cols[1..][i - 1] == cols[i] && cols[1..][j - 1] == cols[j];
      DropColumnsIsSubsequence(cols[1..], i - 1, j - 1);
      var a, b :| 0 <= a < b < |rest| && rest[a] == cols[i].name && rest[b] == cols[j].name;
      var head := if Dropped(cols[0]) then [cols[0].name] else [];
      assert DropColumns(cols) == head + rest;
      assert DropColumns(cols)[|head| + a] == cols[i].name && DropColumns(cols)[|head| + b] == cols[j].name;
    }
  }

  /** Straight after a preview, the runner drops exactly the date and untyped columns. */
  lemma PreviewDropsDatesAndUntyped(path: Path, records: seq<Record>, nRows: Option<int>, p: Parsers)
    requires |records| > 0
    ensures forall n :: n in DropColumns(BuildSchema(path, records, nRows, p).columns) <==>
      exists c :: c in BuildSchema(path, records, nRows, p).columns && c.name == n && (c.typ == Date || c.typ == NoType)
  {
    var cols := BuildSchema(path, records, nRows, p).columns;
    assert forall c :: c in cols ==> (Dropped(c) <==> c.typ == Date || c.typ == NoType) by {
      PreviewWeightsFollowTypes(path, records, nRows, p);
    }
  }

  /** What `csvGenerateRunner` produces besides the script text: the dropped columns and the output path. */
  datatype Runner = Runner(dropColumns: seq<string>, scriptPath: Option<Path>)

  // ---------------------------------------------------------------- the store

  /** The module-level schema store: one schema per path. */
  class SchemaStore {
    var schemas: map<Path, Schema>

    constructor()
      ensures schemas == map[]
    {
      schemas := map[];
    }

    /** `csvPreview`: on success the new schema replaces whatever was stored under the path. */
    method Preview(fs: Fs, path: Path, nRows: Option<int>, parse: string -> Result<seq<Record>, string>, p: Parsers)
      returns (r: Result<Schema, CsvError>)
      modifies this
      ensures r == PreviewOf(fs, path, nRows, parse, p)
      ensures r.Success? ==> schemas == old(schemas)[path := r.value]
      ensures r.Failure? ==> schemas == old(schemas)
    {
      r := PreviewOf(fs, path, nRows, parse, p);
      if r.Success? {
        schemas := schemas[path := r.value];
      }
    }

    /**
     * `csvApplySchemaPatch`: the patches change the stored schema in
     * place, so an unknown column ends the call with the patches before it
     * already applied to the store.
     */
    method ApplySchemaPatch(path: Path, patches: seq<Patch>) returns (r: Result<seq<string>, CsvError>)
      modifies this
      ensures path !in old(schemas) ==> r == Failure(SchemaNotInitialized(path)) && schemas == old(schemas)
      ensures path in old(schemas) ==>
        var run := ApplyPatches(old(schemas)[path].columns, patches);
        && schemas == old(schemas)[path := old(schemas)[path].(columns := run.columns)]
        && (run.applied == |patches| ==> r == Success(PatchNames(patches)))
        && (run.applied < |patches| ==> r == Failure(UnknownColumn(patches[run.applied].columnName)))
    {
      if path !in schemas {
        return Failure(SchemaNotInitialized(path));
      }
      var schema := schemas[path];
      var columns := schema.columns;
      var updated: seq<string> := [];
      var i := 0;
      while i < |patches|
        invariant 0 <= i <= |patches|
        invariant ApplyPatches(schema.columns, patches[..i]) == PatchRun(columns, i)
        invariant schemas == old(schemas)[path := schema.(columns := columns)]
        invariant |updated| == i && forall k :: 0 <= k < i ==> updated[k] == patches[k].columnName
      {
        var patch := patches[i];
        var found := FindIndex(columns, patch.columnName);
        if found.None? {
          assert ApplyPatches(schema.columns, patches) == PatchRun(columns, i) by {
            PatchStep(schema.columns, patches, i);
            PatchFailureSticks(schema.columns, patches, i + 1);
          }
          return Failure(UnknownColumn(patch.columnName));
        }
        NamesGrow(updated, patches, i);
        updated := updated + [patch.columnName];
        var next := columns[found.value := Update(columns[found.value], patch.updates)];
        assert ApplyPatches(schema.columns, patches[..i + 1]) == PatchRun(next, i + 1) by {
          PatchStep(schema.columns, patches, i);
          assert Step(PatchRun(columns, i), patch, i) == PatchRun(next, i + 1);
        }
        columns := next;
        schemas := schemas[path := schema.(columns := columns)];
        i := i + 1;
      }
      assert patches[..i] == patches;
      assert updated == PatchNames(patches);
      r := Success(updated);
    }

    /** `csvGetSchema`: the stored schema, or SCHEMA_NOT_INITIALIZED. */
    function GetSchema(path: Path): (r: Result<Schema, CsvError>)
      reads this
      ensures r.Success? <==> path in schemas
      ensures r.Success? ==> r.value == schemas[path]
      ensures r.Failure? ==> r.error == SchemaNotInitialized(path)
    {
      if path in schemas then Success(schemas[path]) else Failure(SchemaNotInitialized(path))
    }

    /** `csvGenerateRunner`: the columns to drop from the stored schema, or SCHEMA_NOT_INITIALIZED. */
    function GenerateRunner(path: Path, outputPath: Option<Path>): (r: Result<Runner, CsvError>)
      reads this
      ensures r.Success? <==> path in schemas
      ensures r.Success? ==> r.value.scriptPath == outputPath
      ensures r.Success? ==>
        forall n :: n in r.value.dropColumns <==> exists c :: c in schemas[path].columns && c.name == n && Dropped(c)
      ensures r.Failure? ==> r.error == SchemaNotInitialized(path)
    {
      match GetSchema(path)
      case Failure(e) => Failure(e)
      case Success(s) => Success(Runner(DropColumns(s.columns), outputPath))
    }
  }
}
