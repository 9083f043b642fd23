/**
 * The path helpers that the message cache relies on to turn a file path into a
 * dictionary key: backslash replacement, the relative-path test and the
 * rewriting of a path relative to the base directory.
 */
module Paths {

  /** True for both directory separators a build step may write. */
  predicate IsSeparator(c: char) {
    c == '/' || c == '\\'
  }

  /** Replaces every backslash by a forward slash and leaves every other character alone. */
  function BackSlashToForwardSlash(s: string): (r: string)
    ensures |r| == |s|
    ensures forall i :: 0 <= i < |s| ==> r[i] == (if s[i] == '\\' then '/' else s[i])
    ensures '\\' !in r
  {
    if s == [] then []
    else [if s[0] == '\\' then '/' else s[0]] + BackSlashToForwardSlash(s[1..])
  }

  /** A string without backslashes is its own forward-slash form. */
  lemma {:induction false} ForwardSlashFixesSlashFree(s: string)
    requires '\\' !in s
    ensures BackSlashToForwardSlash(s) == s
  {
    if s != [] {
      assert s[0] != '\\';
      assert '\\' !in s[1..];
      ForwardSlashFixesSlashFree(s[1..]);
      assert s == [s[0]] + s[1..];
    }
  }

  /** Replacing backslashes twice is the same as replacing them once. */
  lemma ForwardSlashIdempotent(s: string)
    ensures BackSlashToForwardSlash(BackSlashToForwardSlash(s)) == BackSlashToForwardSlash(s)
  {
    ForwardSlashFixesSlashFree(BackSlashToForwardSlash(s));
  }

  /** Backslash replacement works character by character, so it distributes over concatenation. */
  lemma ForwardSlashConcat(a: string, b: string)
    ensures BackSlashToForwardSlash(a + b) == BackSlashToForwardSlash(a) + BackSlashToForwardSlash(b)
  {
    var l, r := BackSlashToForwardSlash(a + b), BackSlashToForwardSlash(a) + BackSlashToForwardSlash(b);
    assert |l| == |r|;
    forall i | 0 <= i < |l| ensures l[i] == r[i] {
      if i < |a| { assert (a + b)[i] == a[i]; } else { assert (a + b)[i] == b[i - |a|]; }
    }
  }

  /**
   * A path is relative when it is not rooted: it does not start with a
   * separator and carries no drive letter (`C:`).
   */
  predicate IsRelativePath(path: string): (relative: bool)
    ensures ("/" <= path || "\\" <= path) ==> !relative
    ensures |path| > 1 && path[1] == ':' ==> !relative
    ensures !("/" <= path || "\\" <= path) && !(|path| > 1 && path[1] == ':') ==> relative
  {
    !(|path| > 0 && IsSeparator(path[0])) && !(|path| > 1 && path[1] == ':')
  }

  /** Backslash replacement neither makes a path relative nor rooted. */
  lemma ForwardSlashKeepsRelativity(path: string)
    ensures IsRelativePath(BackSlashToForwardSlash(path)) <==> IsRelativePath(path)
  {
  }

  /** The base directory with exactly the trailing slash that a path below it continues with. */
  function DirectoryPrefix(dir: string): (d: string)
    ensures |d| > 0 && d[|d| - 1] == '/'
  {
    if |dir| > 0 && dir[|dir| - 1] == '/' then dir else dir + "/"
  }

  /**
   * `path` rewritten relative to `baseDirectory`: both are brought to
   * forward slashes; when the path lies below the base directory the
   * directory prefix is cut off, otherwise the path is kept whole.
   */
  function MakeRelativePath(baseDirectory: string, path: string): (r: string)
    ensures '\\' !in r
    ensures |r| <= |path|
    ensures var p := BackSlashToForwardSlash(path);
            var d := DirectoryPrefix(BackSlashToForwardSlash(baseDirectory));
            (d <= p ==> d + r == p) && (!(d <= p) ==> r == p)
  {
    var p := BackSlashToForwardSlash(path);
    var d := DirectoryPrefix(BackSlashToForwardSlash(baseDirectory));
    if d <= p then
      var r := p[|d|..];
      assert d + r == p;
      assert forall j :: 0 <= j < |r| ==> r[j] == p[|d| + j];
      r
    else p
  }
}
