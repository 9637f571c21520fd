/**
 * Map snapshots on disk: which files each client reads when it uploads a
 * map directory, which bytes the Python checksum covers, and what each
 * client's download loop leaves on disk.
 */
module Snapshot {
  import opened Wrappers
  import opened Bytes
  import opened Text
  import opened FileSystem
  import Base64
  import Utf8

  // ---------------------------------------------------------------- checksum

  /** `p` lies strictly below `dir`. */
  predicate Below(dir: Path, p: Path) {
    |p| > |dir| + 1 && p[..|dir| + 1] == dir + "/"
  }

  /** No component of a relative path starts with '.': `glob` without `include_hidden` skips such names. */
  predicate Visible(rel: string) {
    |rel| > 0 && rel[0] != '.' && forall i :: 0 <= i < |rel| - 1 && rel[i] == '/' ==> rel[i + 1] != '.'
  }

  /**
   * What the recursive glob of `dir` joined with the pattern "any depth,
   * any name" returns: every entry below `dir`, at any depth, files and directories alike,
   * reached through names that do not start with '.'.
   */
  function GlobSet(fs: Fs, dir: Path): set<Path> {
    set p | p in fs.tree && Below(dir, p) && Visible(p[|dir| + 1..])
  }

  /** What one path contributes to the digest: a regular file's bytes, nothing for anything else. */
  function FileBytes(fs: Fs, p: Path): seq<byte> {
    if IsFile(fs, p) then fs.tree[p].content else []
  }

  /** The bytes fed to `md5.update` over a list of paths, in list order. */
  function Stream(fs: Fs, ps: seq<Path>): seq<byte>
    decreases |ps|
  {
    if |ps| == 0 then [] else Stream(fs, ps[..|ps| - 1]) + FileBytes(fs, ps[|ps| - 1])
  }

  /** The bytes `calculate_checksum` hashes: every globbed regular file, in ascending path order. */
  ghost function ChecksumInput(fs: Fs, dir: Path): seq<byte> {
    Stream(fs, SortedSet(GlobSet(fs, dir)))
  }

  /** The regular files the checksum covers, with their contents. */
  function FileView(fs: Fs, dir: Path): map<Path, seq<byte>> {
    map p | p in GlobSet(fs, dir) && IsFile(fs, p) :: fs.tree[p].content
  }

  /** The contents of the listed files of a view, concatenated in list order. */
  function Concat(view: map<Path, seq<byte>>, ps: seq<Path>): seq<byte>
    requires forall p :: p in ps ==> p in view
    decreases |ps|
  {
    if |ps| == 0 then [] else Concat(view, ps[..|ps| - 1]) + view[ps[|ps| - 1]]
  }

  /** The regular files of a list, in list order. */
  function FilesOf(fs: Fs, ps: seq<Path>): (r: seq<Path>)
    ensures forall x :: x in r <==> x in ps && IsFile(fs, x)
    decreases |ps|
  {
    if |ps| == 0 then []
    else
      var prev := FilesOf(fs, ps[..|ps| - 1]);
      assert forall x :: x in ps <==> x in ps[..|ps| - 1] || x == ps[|ps| - 1] by {
        assert ps == ps[..|ps| - 1] + [ps[|ps| - 1]];
      }
      if IsFile(fs, ps[|ps| - 1]) then prev + [ps[|ps| - 1]] else prev
  }

  lemma {:induction false} StreamSkipsNonFiles(fs: Fs, dir: Path, ps: seq<Path>)
    requires forall p :: p in ps ==> p in GlobSet(fs, dir)
    ensures Stream(fs, ps) == Concat(FileView(fs, dir), FilesOf(fs, ps))
    decreases |ps|
  {
    if |ps| > 0 {
      StreamSkipsNonFiles(fs, dir, ps[..|ps| - 1]);
    }
  }

  lemma {:induction false} FilesOfKeepsOrder(fs: Fs, ps: seq<Path>)
    requires Ordered(ps) && Distinct(ps)
    ensures Ordered(FilesOf(fs, ps)) && Distinct(FilesOf(fs, ps))
    decreases |ps|
  {
    if |ps| > 0 {
      var init := ps[..|ps| - 1];
      var last := ps[|ps| - 1];
      FilesOfKeepsOrder(fs, init);
      var prev := FilesOf(fs, init);
      forall j | 0 <= j < |prev|
        ensures Leq(prev[j], last) && prev[j] != last
      {
        assert prev[j] in init;
        var k :| 0 <= k < |init| && init[k] == prev[j];
        assert ps[k] == prev[j];
      }
    }
  }

  /**
   * The checksum depends on nothing but the regular files below the map
   * directory: directories contribute no bytes, and the order the glob
   * walk produced the paths in does not matter.
   */
  lemma ChecksumCoversFilesOnly(fs: Fs, dir: Path)
    ensures ChecksumInput(fs, dir) == Concat(FileView(fs, dir), SortedSet(FileView(fs, dir).Keys))
  {
    var sorted := SortedSet(GlobSet(fs, dir));
    StreamSkipsNonFiles(fs, dir, sorted);
    FilesOfKeepsOrder(fs, sorted);
    SortedUnique(FilesOf(fs, sorted), SortedSet(FileView(fs, dir).Keys));
  }

  /** Two trees with the same regular files below the map directory give the same checksum. */
  lemma ChecksumIgnoresDirectories(fs1: Fs, fs2: Fs, dir: Path)
    requires FileView(fs1, dir) == FileView(fs2, dir)
    ensures ChecksumInput(fs1, dir) == ChecksumInput(fs2, dir)
  {
    ChecksumCoversFilesOnly(fs1, dir);
    ChecksumCoversFilesOnly(fs2, dir);
  }

  // ---------------------------------------------------------------- upload payloads

  /** The entries of a directory that are regular files. */
  function TopFiles(fs: Fs, dir: Path): set<string> {
    set n | n in Children(fs, dir) && IsFile(fs, Join(dir, n))
  }

  /** What `_read_map_data_from_directory` sends: every top-level regular file, hidden ones too, as base64. */
  function PyMapData(fs: Fs, dir: Path): map<string, string> {
    map n | n in TopFiles(fs, dir) :: Base64.Encode(fs.tree[Join(dir, n)].content)
  }

  /** Names the TypeScript upload skips: add-plot artefacts and logs. */
  predicate Excluded(name: string) {
    StartsWith(name, "segments-add-") || StartsWith(name, "xy-add-") || StartsWith(name, "rawdata_add_") || EndsWith(name, ".log")
  }

  /** What the TypeScript `importMap` sends: the top-level regular files whose names are not excluded, as base64. */
  function TsMapData(fs: Fs, dir: Path): map<string, string> {
    map n | n in TopFiles(fs, dir) && !Excluded(n) :: Base64.Encode(fs.tree[Join(dir, n)].content)
  }

  /** The TypeScript payload is the Python payload without the excluded names. */
  lemma TsPayloadFiltersPyPayload(fs: Fs, dir: Path)
    ensures TsMapData(fs, dir) == map n | n in PyMapData(fs, dir) && !Excluded(n) :: PyMapData(fs, dir)[n]
  {
  }

  // ---------------------------------------------------------------- download loops

  /**
   * Python's handling of one `mapData` entry: `b64decode` (lenient base64),
   * strict UTF-8, then a text-mode write. `None` when any step raises.
   */
  function PySave(fs: Fs, dir: Path, name: string, b64: string): Option<Fs> {
    match Base64.DecodeLenient(b64)
    case None => None
    case Some(bytes) =>
      match Utf8.Decode(bytes)
      case None => None
      case Some(text) => WriteFile(fs, PyJoin(dir, name), Utf8.Encode(text))
  }

  /** The tree after the Python loop over `entries`: a failing entry is reported and skipped. */
  function PyExportFiles(fs: Fs, dir: Path, entries: seq<(string, string)>): Fs
    decreases |entries|
  {
    if |entries| == 0 then fs
    else
      var prev := PyExportFiles(fs, dir, entries[..|entries| - 1]);
      var e := entries[|entries| - 1];
      match PySave(prev, dir, e.0, e.1)
      case None => prev
      case Some(next) => next
  }

  /**
   * Node's handling of one entry: lenient base64 (`decode`, which never
   * throws), replacing UTF-8 decoding, then a write. `None` when the write throws.
   */
  function TsSave(fs: Fs, dir: Path, name: string, b64: string, decode: string -> seq<byte>): Option<Fs> {
    WriteFile(fs, Join(dir, name), Utf8.Encode(Utf8.DecodeLossy(decode(b64))))
  }

  /** How the TypeScript loop ends: all entries written, or the first failing entry and the tree it left. */
  datatype Saved = AllSaved(fs: Fs) | StoppedAt(name: string, fs: Fs)

  /** The TypeScript loop over `entries`: the first failing write ends it. */
  function TsExportFiles(fs: Fs, dir: Path, entries: seq<(string, string)>, decode: string -> seq<byte>): Saved
    decreases |entries|
  {
    if |entries| == 0 then AllSaved(fs)
    else
      match TsExportFiles(fs, dir, entries[..|entries| - 1], decode)
      case StoppedAt(n, partial) => StoppedAt(n, partial)
      case AllSaved(prev) =>
        var e := entries[|entries| - 1];
        match TsSave(prev, dir, e.0, e.1, decode)
        case None => StoppedAt(e.0, prev)
        case Some(next) => AllSaved(next)
  }

  // ---------------------------------------------------------------- properties of the download loops

  /** Entry names of a `mapData` object: plain and pairwise different. */
  predicate PlainDistinctNames(entries: seq<(string, string)>) {
    (forall i :: 0 <= i < |entries| ==> PlainName(entries[i].0))
    && forall i, j :: 0 <= i < j < |entries| ==> entries[i].0 != entries[j].0
  }

  /** A directory path as the clients are given it: non-empty, no trailing '/'. */
  predicate DirPath(dir: Path) {
    dir != "" && !EndsWith(dir, "/")
  }

  /** An entry Python can store: text `b64decode` accepts, of well-formed UTF-8. */
  predicate PyStorable(b64: string) {
    Base64.DecodeLenient(b64).Some? && Utf8.Decode(Base64.DecodeLenient(b64).value).Some?
  }

  lemma JoinInjective(dir: Path, a: string, b: string)
    requires Join(dir, a) == Join(dir, b)
    ensures a == b
  {
    assert a == Join(dir, a)[|dir| + 1..];
  }

  /** Writing one path leaves whether another can be written, and what sits there, as it was. */
  lemma WriteKeepsOthers(fs: Fs, p: Path, data: seq<byte>, q: Path)
    requires WriteFile(fs, p, data).Some? && p != q
    ensures CanWrite(fs, q) ==> CanWrite(WriteFile(fs, p, data).value, q)
    ensures q in fs.tree <==> q in WriteFile(fs, p, data).value.tree
    ensures q in fs.tree ==> WriteFile(fs, p, data).value.tree[q] == fs.tree[q]
  {
  }

  /** The Python loop changes no path that no entry names. */
  lemma {:induction false} PyExportKeepsOthers(fs: Fs, dir: Path, entries: seq<(string, string)>, q: Path)
    requires forall i :: 0 <= i < |entries| ==> PyJoin(dir, entries[i].0) != q
    ensures CanWrite(fs, q) ==> CanWrite(PyExportFiles(fs, dir, entries), q)
    ensures q in fs.tree <==> q in PyExportFiles(fs, dir, entries).tree
    ensures q in fs.tree ==> PyExportFiles(fs, dir, entries).tree[q] == fs.tree[q]
    decreases |entries|
  {
    if |entries| > 0 {
      var init := entries[..|entries| - 1];
      var e := entries[|entries| - 1];
      PyExportKeepsOthers(fs, dir, init, q);
      var prev := PyExportFiles(fs, dir, init);
      if PySave(prev, dir, e.0, e.1).Some? {
        var bytes := Base64.DecodeLenient(e.1).value;
        WriteKeepsOthers(prev, PyJoin(dir, e.0), Utf8.Encode(Utf8.Decode(bytes).value), q);
      }
    }
  }

  /**
   * Python's download is best effort: every storable entry whose path can
   * be written ends up on disk with exactly the bytes the server sent,
   * whatever happens to the other entries.
   */
  lemma {:induction false} PyExportStoresEveryGoodEntry(fs: Fs, dir: Path, entries: seq<(string, string)>, i: nat)
    requires DirPath(dir) && PlainDistinctNames(entries)
    requires i < |entries| && PyStorable(entries[i].1) && CanWrite(fs, Join(dir, entries[i].0))
    ensures var tree := PyExportFiles(fs, dir, entries).tree;
      Join(dir, entries[i].0) in tree && tree[Join(dir, entries[i].0)] == File(Base64.DecodeLenient(entries[i].1).value)
    decreases |entries|
  {
    var q := Join(dir, entries[i].0);
    var init := entries[..|entries| - 1];
    var e := entries[|entries| - 1];
    var prev := PyExportFiles(fs, dir, init);
    if i == |entries| - 1 {
      forall j | 0 <= j < |init|
        ensures PyJoin(dir, init[j].0) != q
      {
        if PyJoin(dir, init[j].0) == q {
          JoinInjective(dir, init[j].0, e.0);
        }
      }
      PyExportKeepsOthers(fs, dir, init, q);
      var bytes := Base64.DecodeLenient(e.1).value;
      Utf8.EncodeDecode(bytes);
    } else {
      assert init[i] == entries[i];
      PyExportStoresEveryGoodEntry(fs, dir, init, i);
      if PyJoin(dir, e.0) == q {
        JoinInjective(dir, e.0, entries[i].0);
      }
      if PySave(prev, dir, e.0, e.1).Some? {
        var bytes := Base64.DecodeLenient(e.1).value;
        WriteKeepsOthers(prev, PyJoin(dir, e.0), Utf8.Encode(Utf8.Decode(bytes).value), q);
      }
    }
  }

  /**
   * A map Python exported and then reads back for upload sends each
   * storable entry as the canonical encoding of the bytes it stored: the
   * very text the server gave it when that text was canonical base64.
   */
  lemma ExportThenReadRoundTrip(fs: Fs, dir: Path, entries: seq<(string, string)>, i: nat)
    requires DirPath(dir) && PlainDistinctNames(entries)
    requires i < |entries| && PyStorable(entries[i].1) && CanWrite(fs, Join(dir, entries[i].0))
    ensures var data := PyMapData(PyExportFiles(fs, dir, entries), dir);
      entries[i].0 in data && data[entries[i].0] == Base64.Encode(Base64.DecodeLenient(entries[i].1).value)
    ensures var data := PyMapData(PyExportFiles(fs, dir, entries), dir);
      Base64.Decode(entries[i].1).Some? ==> data[entries[i].0] == entries[i].1
  {
    var after := PyExportFiles(fs, dir, entries);
    PyExportStoresEveryGoodEntry(fs, dir, entries, i);
    ChildrenAreEntries(after, dir, entries[i].0);
    if Base64.Decode(entries[i].1).Some? {
      Base64.LenientAgreesOnCanonical(entries[i].1);
      Base64.EncodeDecode(entries[i].1);
    }
  }

  /**
   * TypeScript's download stops at the first entry it cannot write: the
   * entries before it were all written, the failing one and every later
   * one were not.
   */
  lemma {:induction false} TsExportStopsAtFirstFailure(fs: Fs, dir: Path, entries: seq<(string, string)>, decode: string -> seq<byte>)
    requires TsExportFiles(fs, dir, entries, decode).StoppedAt?
    ensures var r := TsExportFiles(fs, dir, entries, decode);
      exists k :: 0 <= k < |entries| && entries[k].0 == r.name
        && TsExportFiles(fs, dir, entries[..k], decode) == AllSaved(r.fs)
        && TsSave(r.fs, dir, entries[k].0, entries[k].1, decode).None?
    decreases |entries|
  {
    var init := entries[..|entries| - 1];
    var r := TsExportFiles(fs, dir, entries, decode);
    if TsExportFiles(fs, dir, init, decode).StoppedAt? {
      TsExportStopsAtFirstFailure(fs, dir, init, decode);
      var k :| 0 <= k < |init| && init[k].0 == r.name
        && TsExportFiles(fs, dir, init[..k], decode) == AllSaved(r.fs)
        && TsSave(r.fs, dir, init[k].0, init[k].1, decode).None?;
      assert init[..k] == entries[..k];
    } else {
      assert entries[..|entries| - 1] == init;
    }
  }

  /** The TypeScript loop changes no path that no entry names. */
  lemma {:induction false} TsExportKeepsOthers(fs: Fs, dir: Path, entries: seq<(string, string)>, decode: string -> seq<byte>, q: Path)
    requires forall i :: 0 <= i < |entries| ==> Join(dir, entries[i].0) != q
    requires TsExportFiles(fs, dir, entries, decode).AllSaved?
    ensures q in fs.tree <==> q in TsExportFiles(fs, dir, entries, decode).fs.tree
    ensures q in fs.tree ==> TsExportFiles(fs, dir, entries, decode).fs.tree[q] == fs.tree[q]
    decreases |entries|
  {
    if |entries| > 0 {
      TsExportKeepsOthers(fs, dir, entries[..|entries| - 1], decode, q);
    }
  }

  /**
   * When the TypeScript loop completes, every entry is on disk as the
   * UTF-8 form of its lenient decoding; for content that is well-formed
   * UTF-8 that is exactly the decoded bytes.
   */
  lemma {:induction false} TsExportStoresEveryEntry(fs: Fs, dir: Path, entries: seq<(string, string)>, decode: string -> seq<byte>, i: nat)
    requires PlainDistinctNames(entries)
    requires TsExportFiles(fs, dir, entries, decode).AllSaved? && i < |entries|
    ensures var tree := TsExportFiles(fs, dir, entries, decode).fs.tree;
      Join(dir, entries[i].0) in tree
      && var written := tree[Join(dir, entries[i].0)];
      written == File(Utf8.Encode(Utf8.DecodeLossy(decode(entries[i].1))))
      && (Utf8.Decode(decode(entries[i].1)).Some? ==> written == File(decode(entries[i].1)))
    decreases |entries|
  {
    var q := Join(dir, entries[i].0);
    var init := entries[..|entries| - 1];
    var e := entries[|entries| - 1];
    if i == |entries| - 1 {
      forall j | 0 <= j < |init|
        ensures Join(dir, init[j].0) != q
      {
        if Join(dir, init[j].0) == q {
          JoinInjective(dir, init[j].0, e.0);
        }
      }
    } else {
      assert init[i] == entries[i];
      TsExportStoresEveryEntry(fs, dir, init, decode, i);
      if Join(dir, e.0) == q {
        JoinInjective(dir, e.0, entries[i].0);
      }
    }
    var bytes := decode(entries[i].1);
    if Utf8.Decode(bytes).Some? {
      Utf8.LossyAgrees(bytes);
      Utf8.EncodeDecode(bytes);
    }
  }
}
