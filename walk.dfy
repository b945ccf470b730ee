/** The depth-bounded, exclude-filtered directory walk of the packer (`findFiles`).

    The filesystem below one walk root is a finite tree of `Node`s, visited in
    pre-order the way `filepath.Walk` visits it; the callback decides for each
    entry whether it is listed and whether its subtree is skipped. */
module FileWalk {

  /** One entry as the walk sees it: its base name, its full path, whether it is a
      directory, whether visiting it reported an error (the entry or its listing
      could not be read), and, for a directory, its entries in listing order.
      A directory whose listing cannot be read is visited once, with the error,
      as current `filepath.Walk` does; so it is `failed`, not listed and not
      descended into. */
  datatype Node = Node(name: string, path: string, isDir: bool, failed: bool, children: seq<Node>)

  /** Number of occurrences of the separator `sep` in `s` (`strings.Count`). */
  function Seps(s: string, sep: char): (n: nat)
    ensures n <= |s|
    decreases |s|
  {
    if s == [] then 0
    else (if s[0] == sep then 1 else 0) + Seps(s[1..], sep)
  }

  /** What one call of the walk is configured with: the separator count of the
      root path, the maximal depth, the host's path separator, the compiled
      exclude patterns and the regular-expression engine that matches them. */
  datatype Walker = Walker(
    base: int,
    depth: int,
    sep: char,
    skips: seq<string>,
    matches: (string, string) -> bool)

  /** Depth of an entry below the walk root, counted in separators. */
  function RelDepth(n: Node, w: Walker): int
  {
    Seps(n.path, w.sep) - w.base
  }

  /** Exclude pattern `re` matches the entry's base name or its full path. */
  predicate SkipMatches(re: string, n: Node, w: Walker)
  {
    w.matches(re, n.name) || w.matches(re, n.path)
  }

  /** Some exclude pattern matches the entry. */
  predicate Excluded(n: Node, w: Walker)
  {
    exists i :: 0 <= i < |w.skips| && SkipMatches(w.skips[i], n, w)
  }

  /** A directory deeper than the configured depth (files are never depth-checked). */
  predicate TooDeep(n: Node, w: Walker)
  {
    n.isDir && RelDepth(n, w) > w.depth
  }

  /** The callback appends the entry's path. */
  predicate Listable(n: Node, w: Walker)
  {
    !n.failed && !TooDeep(n, w) && !Excluded(n, w)
  }

  /** The walk descends into the entry: a listed directory. */
  predicate Entered(n: Node, w: Walker)
  {
    Listable(n, w) && n.isDir
  }

  /** The paths the walk appends for the subtree at `n`, in visiting order. */
  function Walk(n: Node, w: Walker): seq<string>
    decreases n, |n.children| + 1
  {
    if !Listable(n, w) then []
    else [n.path] + (if n.isDir then WalkUpTo(n, w, |n.children|) else [])
  }

  /** The paths appended for the first `k` entries of the directory `n`. */
  function WalkUpTo(n: Node, w: Walker, k: nat): seq<string>
    requires k <= |n.children|
    decreases n, k
  {
    if k == 0 then [] else WalkUpTo(n, w, k - 1) + Walk(n.children[k - 1], w)
  }

  /** The walk callback for one entry (pack.go:25-55): whether it appends the
      entry's path and whether it answers `SkipDir`. An entry whose visit
      failed is only logged; a too-deep directory is skipped before the
      exclude patterns are tried; the patterns are tried in order until one
      matches. */
  method Visit(n: Node, w: Walker) returns (list: bool, skipDir: bool)
    ensures list <==> Listable(n, w)
    ensures skipDir <==> !n.failed && n.isDir && !Listable(n, w)
  {
    if n.failed {
      return false, false;
    }
    if n.isDir {
      var pathDepth := Seps(n.path, w.sep) - w.base;
      if pathDepth > w.depth {
        return false, true;
      }
    }
    var isSkip := false;
    var i := 0;
    while i < |w.skips| && !isSkip
      invariant 0 <= i <= |w.skips|
      invariant isSkip <==> exists j :: 0 <= j < i && SkipMatches(w.skips[j], n, w)
    {
      if w.matches(w.skips[i], n.name) || w.matches(w.skips[i], n.path) {
        isSkip := true;
      }
      i := i + 1;
    }
    list := !isSkip;
    skipDir := isSkip && n.isDir;
  }

  /** `filepath.Walk` over the subtree at `n` with the callback `Visit`,
      appending to `files`: an entry whose visit failed, a file, and a
      directory answered with `SkipDir` are not descended into; the entries of
      any other directory are walked in listing order. */
  method WalkNode(n: Node, w: Walker, files: seq<string>) returns (out: seq<string>)
    ensures out == files + Walk(n, w)
    decreases n
  {
    var list, skipDir := Visit(n, w);
    out := if list then files + [n.path] else files;
    if !n.failed && n.isDir && !skipDir {
      ghost var head := files + [n.path];
      var i := 0;
      while i < |n.children|
        invariant 0 <= i <= |n.children|
        invariant out == head + WalkUpTo(n, w, i)
      {
        out := WalkNode(n.children[i], w, out);
        assert WalkUpTo(n, w, i + 1) == WalkUpTo(n, w, i) + Walk(n.children[i], w);
        i := i + 1;
      }
      assert Walk(n, w) == [n.path] + WalkUpTo(n, w, |n.children|);
    } else {
      assert Walk(n, w) == if list then [n.path] else [];
    }
  }

  /** `findFiles` (pack.go:22-57): walk the tree `root` found at `path`, with
      depths measured from the separator count of `path`. `filepath.Walk`
      visits the root under `path` itself, so the root is at depth 0 and,
      when it is listed, comes first. */
  method FindFiles(path: string, depth: int, skips: seq<string>, matches: (string, string) -> bool,
                   sep: char, root: Node) returns (files: seq<string>)
    requires root.path == path
    ensures files == Walk(root, Walker(Seps(path, sep), depth, sep, skips, matches))
    ensures RelDepth(root, Walker(Seps(path, sep), depth, sep, skips, matches)) == 0
    ensures files != [] ==> files[0] == path
  {
    var baseNumSeps := Seps(path, sep);
    files := WalkNode(root, Walker(baseNumSeps, depth, sep, skips, matches), []);
  }
}
