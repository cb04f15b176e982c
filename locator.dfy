/**
 * Root resolution and tolerant file lookup. The filesystem is a map from a
 * path to the contents of the file there; a path is a key exactly when a file
 * exists at it and can be opened for reading.
 */
module Locator {

  import opened Options

  /** The filesystem as the loader sees it: readable files by path. */
  type FileSystem<C> = map<string, C>

  /** `root / name` for a relative file name: no separator is added after an empty root or a trailing '/'. */
  function JoinPath(root: string, name: string): (path: string)
    ensures |path| >= |name| && path[|path| - |name|..] == name
  {
    if root == [] || root[|root| - 1] == '/' then root + name else root + "/" + name
  }

  /**
   * The directories to search, in order: the given root directory when it is
   * non-empty, otherwise the current directory.
   */
  function ConfigRoots(rootDirectory: string, currentPath: string): (roots: seq<string>)
    ensures |roots| == 1
    ensures rootDirectory != [] ==> roots[0] == rootDirectory
    ensures rootDirectory == [] ==> roots[0] == currentPath
  {
    if rootDirectory != [] then [rootDirectory] else [currentPath]
  }

  /** A file that was found: the joined path it was opened at, and its contents. */
  datatype Located<C> = Located(path: string, content: C)

  /** The first root, in order, at which `name` opens, with what it holds there. */
  function Locate<C>(roots: seq<string>, name: string, fs: FileSystem<C>): (r: Option<Located<C>>)
  {
    if roots == [] then None
    else
      var path := JoinPath(roots[0], name);
      if path in fs then Some(Located(path, fs[path])) else Locate(roots[1..], name, fs)
  }

  /** The path a lookup records: the located path, or the empty string when nothing was found. */
  function PathOrEmpty<C>(found: Option<Located<C>>): (path: string)
  {
    if found.Some? then found.value.path else ""
  }

  /**
   * Tries the roots in order; at the first where `name` opens, records the
   * joined path in the summary, hands the opened contents back for the
   * handler, and succeeds. When no root yields the file, fails and leaves the
   * summary as it was.
   */
  method TryParseConfig<C>(roots: seq<string>, name: string, fs: FileSystem<C>, summary: string)
    returns (ok: bool, newSummary: string, stream: Option<C>)
    ensures ok == Locate(roots, name, fs).Some? && ok == stream.Some?
    ensures ok ==> newSummary == Locate(roots, name, fs).value.path
    ensures ok ==> stream.value == Locate(roots, name, fs).value.content
    ensures !ok ==> newSummary == summary
  {
    var i := 0;
    while i < |roots|
      invariant i <= |roots|
      invariant Locate(roots[i..], name, fs) == Locate(roots, name, fs)
    {
      var path := JoinPath(roots[i], name);
      if path !in fs {
        assert roots[i..][1..] == roots[i + 1..];
        i := i + 1;
        continue;
      }
      return true, path, Some(fs[path]);
    }
    return false, summary, None;
  }

  /** What a lookup finds is really there: the file at the recorded path, under one of the roots. */
  lemma {:induction false} LocateFound<C>(roots: seq<string>, name: string, fs: FileSystem<C>)
    requires Locate(roots, name, fs).Some?
    ensures exists i :: 0 <= i < |roots|
              && JoinPath(roots[i], name) in fs
              && Locate(roots, name, fs) == Some(Located(JoinPath(roots[i], name), fs[JoinPath(roots[i], name)]))
              && forall j :: 0 <= j < i ==> JoinPath(roots[j], name) !in fs
  {
    if JoinPath(roots[0], name) !in fs {
      LocateFound(roots[1..], name, fs);
      var i :| 0 <= i < |roots[1..]|
               && JoinPath(roots[1..][i], name) in fs
               && Locate(roots[1..], name, fs) == Some(Located(JoinPath(roots[1..][i], name), fs[JoinPath(roots[1..][i], name)]))
               && forall j :: 0 <= j < i ==> JoinPath(roots[1..][j], name) !in fs;
      assert forall j :: 0 < j <= i + 1 ==> roots[j] == roots[1..][j - 1];
    } else {
      assert Locate(roots, name, fs) == Some(Located(JoinPath(roots[0], name), fs[JoinPath(roots[0], name)]));
    }
  }

  /**
   * The first root wins: when root i is the first at which `name` opens, the
   * lookup finds the file there, whatever later roots hold.
   */
  lemma {:induction false} LocateFirstWins<C>(roots: seq<string>, name: string, fs: FileSystem<C>, i: nat)
    requires i < |roots| && JoinPath(roots[i], name) in fs
    requires forall j :: 0 <= j < i ==> JoinPath(roots[j], name) !in fs
    ensures Locate(roots, name, fs) == Some(Located(JoinPath(roots[i], name), fs[JoinPath(roots[i], name)]))
  {
    if i > 0 {
      assert JoinPath(roots[0], name) !in fs;
      forall j | 0 <= j < i - 1 ensures JoinPath(roots[1..][j], name) !in fs {
        assert roots[1..][j] == roots[j + 1];
      }
      LocateFirstWins(roots[1..], name, fs, i - 1);
    }
  }

  /** The lookup fails exactly when `name` opens at none of the roots. */
  lemma {:induction false} LocateNone<C>(roots: seq<string>, name: string, fs: FileSystem<C>)
    ensures Locate(roots, name, fs).None? <==> forall i :: 0 <= i < |roots| ==> JoinPath(roots[i], name) !in fs
  {
    if roots != [] {
      LocateNone(roots[1..], name, fs);
      assert forall i :: 0 < i < |roots| ==> roots[i] == roots[1..][i - 1];
    }
  }

  /** A root lacking the file does not stop the search: the second root's copy is found. */
  lemma SecondRootUsed<C>(first: string, second: string, name: string, fs: FileSystem<C>)
    requires JoinPath(first, name) !in fs && JoinPath(second, name) in fs
    ensures Locate([first, second], name, fs) == Some(Located(JoinPath(second, name), fs[JoinPath(second, name)]))
  {
    LocateFirstWins([first, second], name, fs, 1);
  }
}
