/**
 * `basename`, simplified to the segment after the last `/` (PHP's trailing-slash
 * stripping and suffix argument are not modelled).
 */
module Paths {

  /** The longest suffix of `path` without a `/`. */
  function Basename(path: string): (name: string)
    ensures '/' !in name && |name| <= |path|
    decreases |path|
  {
    if path == [] || path[|path| - 1] == '/' then []
    else Basename(path[..|path| - 1]) + [path[|path| - 1]]
  }

  /**
   * The basename is a `/`-free suffix of the path, and it starts right after
   * the last `/` (or at the start, when there is none).
   */
  lemma {:induction false} BasenameIsLastSegment(path: string)
    ensures var name := Basename(path);
      '/' !in name && |name| <= |path| && name == path[|path| - |name|..] &&
      (|name| < |path| ==> path[|path| - |name| - 1] == '/')
    decreases |path|
  {
    if path == [] || path[|path| - 1] == '/' {
    } else {
      var init := path[..|path| - 1];
      BasenameIsLastSegment(init);
      var name := Basename(path);
      assert name == Basename(init) + [path[|path| - 1]];
      assert name == path[|path| - |name|..];
    }
  }

  /** A directory path as the downloader expects it: empty or ending in `/`. */
  predicate IsDirectoryPrefix(dir: string) {
    dir == [] || dir[|dir| - 1] == '/'
  }

  /** A name without `/` placed after a directory prefix is the basename of the result. */
  lemma {:induction false} BasenameAfterDirectory(dir: string, name: string)
    requires IsDirectoryPrefix(dir)
    requires '/' !in name
    ensures Basename(dir + name) == name
    decreases |name|
  {
    var path := dir + name;
    if name == [] {
      assert path == dir;
    } else {
      var init, last := name[..|name| - 1], name[|name| - 1];
      assert last in name;
      assert path[|path| - 1] == last != '/';
      assert path[..|path| - 1] == dir + init;
      assert Basename(path) == Basename(dir + init) + [last];
      BasenameAfterDirectory(dir, init);
      assert init + [last] == name;
    }
  }

  /** Taking the basename twice changes nothing. */
  lemma BasenameIdempotent(path: string)
    ensures Basename(Basename(path)) == Basename(path)
  {
    BasenameIsLastSegment(path);
    BasenameAfterDirectory([], Basename(path));
    assert [] + Basename(path) == Basename(path);
  }
}
