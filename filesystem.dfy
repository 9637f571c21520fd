/**
 * The local file system as both clients see it: a map from '/'-separated
 * path strings to regular files (their bytes) and directories, plus the
 * paths the process is not allowed to create or write.
 */
module FileSystem {
  import opened Wrappers
  import opened Bytes
  import opened Text

  type Path = string

  datatype Node = File(content: seq<byte>) | Dir

  datatype Fs = Fs(tree: map<Path, Node>, locked: set<Path>)

  predicate IsFile(fs: Fs, p: Path) {
    p in fs.tree && fs.tree[p].File?
  }

  predicate IsDir(fs: Fs, p: Path) {
    p in fs.tree && fs.tree[p].Dir?
  }

  /** The path of entry `name` of directory `dir`, as Node's `path.join` builds it for a plain name. */
  function Join(dir: Path, name: string): Path {
    dir + "/" + name
  }

  /** A name that denotes one entry of a directory: non-empty and without '/'. */
  predicate PlainName(name: string) {
    name != "" && '/' !in name
  }

  /** Python's `os.path.join(dir, name)`: an absolute `name` replaces `dir`; no second '/' after a trailing one. */
  function PyJoin(dir: Path, name: string): (r: Path)
    ensures PlainName(name) && dir != "" && !EndsWith(dir, "/") ==> r == Join(dir, name)
  {
    if StartsWith(name, "/") then name
    else if dir == "" || EndsWith(dir, "/") then dir + name
    else Join(dir, name)
  }

  /** The directory a path names an entry of. */
  function Parent(p: Path): Path {
    var i := LastIndexOf(p, '/');
    if i < 0 then "" else p[..i]
  }

  lemma ParentOfJoin(dir: Path, name: string)
    requires PlainName(name)
    ensures Parent(Join(dir, name)) == dir
    ensures LastIndexOf(Join(dir, name), '/') == |dir|
  {
    var p := Join(dir, name);
    assert p[|dir|] == '/';
    assert forall j :: |dir| < j < |p| ==> p[j] == name[j - |dir| - 1];
  }

  /** `p` is `dir + "/" + n` for a plain name `n`. */
  predicate IsChildPath(dir: Path, p: Path) {
    |p| > |dir| + 1 && p[..|dir| + 1] == dir + "/" && '/' !in p[|dir| + 1..]
  }

  /** The names `os.listdir` and `fs.readdirSync` report for a directory, hidden ones included. */
  function Children(fs: Fs, dir: Path): set<string> {
    set p | p in fs.tree && IsChildPath(dir, p) :: p[|dir| + 1..]
  }

  lemma ChildrenAreEntries(fs: Fs, dir: Path, name: string)
    ensures name in Children(fs, dir) <==> PlainName(name) && Join(dir, name) in fs.tree
  {
    var p := Join(dir, name);
    if PlainName(name) && p in fs.tree {
      assert p[..|dir| + 1] == dir + "/" && p[|dir| + 1..] == name;
    }
    if name in Children(fs, dir) {
      var q :| q in fs.tree && IsChildPath(dir, q) && q[|dir| + 1..] == name;
      assert q == q[..|dir| + 1] + q[|dir| + 1..];
    }
  }

  /**
   * Whether opening `p` for writing succeeds: the path names an entry, is
   * not a directory, is not locked, and its directory exists.
   */
  predicate CanWrite(fs: Fs, p: Path) {
    LastIndexOf(p, '/') < |p| - 1 && p !in fs.locked && !IsDir(fs, p) && IsDir(fs, Parent(p))
  }

  /** Creating or truncating `p` and writing `data` to it; `None` is the `OSError` the write raises. */
  function WriteFile(fs: Fs, p: Path, data: seq<byte>): (r: Option<Fs>)
    ensures r.Some? <==> CanWrite(fs, p)
    ensures r.Some? ==> r.value.tree == fs.tree[p := File(data)] && r.value.locked == fs.locked
  {
    if CanWrite(fs, p) then Some(fs.(tree := fs.tree[p := File(data)])) else None
  }

  /** `p` and every directory above it, the root excepted. */
  function Chain(p: Path): set<Path> {
    set i | 0 < i <= |p| && (i == |p| || p[i] == '/') :: p[..i]
  }

  /** `q` stops a recursive directory creation when it reaches it: a regular file, or a missing directory it may not create. */
  predicate Blocks(fs: Fs, q: Path) {
    IsFile(fs, q) || (q !in fs.tree && q in fs.locked)
  }

  /** The members of `Chain(p)` are the prefixes of `p` that end where `p` ends or before one of its '/'. */
  lemma ChainMember(p: Path, q: Path)
    ensures q in Chain(p) <==> 0 < |q| <= |p| && q == p[..|q|] && (|q| == |p| || p[|q|] == '/')
  {
    if 0 < |q| <= |p| && q == p[..|q|] && (|q| == |p| || p[|q|] == '/') {
      var k := |q|;
      assert q == p[..k];
    }
  }

  /** The directories above `p` are `Chain` of its parent: `p` adds only itself. */
  lemma ChainStep(p: Path, q: Path)
    requires p != ""
    ensures q in Chain(p) <==> q == p || (LastIndexOf(p, '/') > 0 && q in Chain(p[..LastIndexOf(p, '/')]))
    ensures q in Chain(p) ==> 0 < |q| <= |p|
  {
    var i := LastIndexOf(p, '/');
    ChainMember(p, q);
    ChainMember(p, p);
    assert p == p[..|p|];
    if i > 0 {
      var h := p[..i];
      ChainMember(h, q);
      if q in Chain(p) && q != p {
        assert |q| < |p| && p[|q|] == '/';
        assert |q| <= i;
        assert q == h[..|q|];
        assert |q| == i || h[|q|] == '/';
      }
      if q in Chain(h) {
        assert q == p[..|q|];
        assert |q| == |p| || p[|q|] == '/';
      }
    }
  }

  /** No directory from the top of the chain down to `q` blocks its creation. */
  predicate ClearTo(fs: Fs, q: Path) {
    forall b :: b in Chain(q) ==> !Blocks(fs, b)
  }

  lemma ClearToStep(fs: Fs, p: Path)
    requires p != ""
    ensures LastIndexOf(p, '/') <= 0 ==> (ClearTo(fs, p) <==> !Blocks(fs, p))
    ensures LastIndexOf(p, '/') > 0 ==> (ClearTo(fs, p) <==> ClearTo(fs, p[..LastIndexOf(p, '/')]) && !Blocks(fs, p))
  {
    forall q { ChainStep(p, q); }
  }

  /** What a recursive directory creation leaves behind: the tree as far as it got, and whether it succeeded. */
  datatype Made = Made(fs: Fs, ok: bool)

  /**
   * Creating a directory and every missing directory above it, outermost
   * first, accepting ones that exist (`os.makedirs(p, exist_ok=True)`,
   * `fs.mkdirSync(p, {recursive: true})`). The first blocked directory of
   * the chain stops it with an error; the directories it created above that
   * one stay.
   */
  function MakeDirs(fs: Fs, p: Path): (r: Made)
    ensures r.fs.locked == fs.locked
    ensures forall q :: q in fs.tree ==> q in r.fs.tree && r.fs.tree[q] == fs.tree[q]
    ensures forall q :: q in r.fs.tree && q !in fs.tree ==> r.fs.tree[q] == Dir && q in Chain(p) && ClearTo(fs, q)
    ensures forall q :: q in Chain(p) && ClearTo(fs, q) ==> IsDir(r.fs, q)
    ensures r.ok <==> p != "" && ClearTo(fs, p)
    ensures r.ok ==> IsDir(r.fs, p)
    ensures p != "" && (forall q :: q in Chain(p) ==> IsDir(fs, q)) ==> r == Made(fs, true)
    decreases |p|
  {
    if p == "" then Made(fs, false)
    else
      var i := LastIndexOf(p, '/');
      var above := if i <= 0 then Made(fs, true) else MakeDirs(fs, p[..i]);
      MakeDirsStep(fs, p, above);
      if !above.ok || IsDir(above.fs, p) then above
      else if p in above.fs.tree || p in fs.locked then Made(above.fs, false)
      else Made(above.fs.(tree := above.fs.tree[p := Dir]), true)
  }

  /** The step of `MakeDirs` at `p`, given what it did for the directories above. */
  lemma MakeDirsStep(fs: Fs, p: Path, above: Made)
    requires p != ""
    requires LastIndexOf(p, '/') <= 0 ==> above == Made(fs, true)
    requires LastIndexOf(p, '/') > 0 ==> var h := p[..LastIndexOf(p, '/')];
      && above.fs.locked == fs.locked
      && (forall q :: q in fs.tree ==> q in above.fs.tree && above.fs.tree[q] == fs.tree[q])
      && (forall q :: q in above.fs.tree && q !in fs.tree ==> above.fs.tree[q] == Dir && q in Chain(h) && ClearTo(fs, q))
      && (forall q :: q in Chain(h) && ClearTo(fs, q) ==> IsDir(above.fs, q))
      && (above.ok <==> ClearTo(fs, h))
      && ((forall q :: q in Chain(h) ==> IsDir(fs, q)) ==> above == Made(fs, true))
    ensures p in Chain(p)
    ensures ClearTo(fs, p) <==> above.ok && !Blocks(fs, p)
    ensures forall q :: q in above.fs.tree && q !in fs.tree ==> above.fs.tree[q] == Dir && q in Chain(p) && q != p && ClearTo(fs, q)
    ensures p in above.fs.tree <==> p in fs.tree
    ensures forall q :: q in Chain(p) && q != p && ClearTo(fs, q) ==> IsDir(above.fs, q)
    ensures (forall q :: q in Chain(p) ==> IsDir(fs, q)) ==> above == Made(fs, true) && IsDir(fs, p)
  {
    ClearToStep(fs, p);
    forall q { ChainStep(p, q); }
    assert p == p[..|p|];
    ChainMember(p, p);
    var i := LastIndexOf(p, '/');
    if i > 0 {
      forall q | q in Chain(p[..i]) { ChainStep(p[..i], q); }
    }
  }
  /** A chain stopped below its top keeps the directory it created above the blocked one. */
  lemma MakeDirsKeepsCreatedAncestors()
    ensures var fs := Fs(map["" := Dir], {"/x/y"});
      MakeDirs(fs, "/x/y") == Made(Fs(map["" := Dir, "/x" := Dir], {"/x/y"}), false)
  {
    var fs := Fs(map["" := Dir], {"/x/y"});
    assert LastIndexOf("/x", '/') == 0;
    assert MakeDirs(fs, "/x") == Made(Fs(map["" := Dir, "/x" := Dir], {"/x/y"}), true);
    assert LastIndexOf("/x/y", '/') == 2;
    assert "/x/y"[..2] == "/x";
  }

  /** Listing a directory (`os.listdir`, `fs.readdirSync`): `None` when `dir` is missing or not a directory. */
  function ListDir(fs: Fs, dir: Path): (r: Option<set<string>>)
    ensures r.Some? <==> IsDir(fs, dir)
  {
    if IsDir(fs, dir) then Some(Children(fs, dir)) else None
  }

  /**
   * Produces the elements of a set in an order the caller does not control,
   * as a directory listing or a JavaScript object's entries arrive.
   */
  method Enumerate(s: set<string>) returns (r: seq<string>)
    ensures Distinct(r)
    ensures forall x :: x in r <==> x in s
  {
    r := [];
    var rest := s;
    while rest != {}
      invariant rest <= s
      invariant Distinct(r)
      invariant forall x :: x in r <==> x in s && x !in rest
      decreases |rest|
    {
      var x :| x in rest;
      r := r + [x];
      rest := rest - {x};
    }
  }
}
