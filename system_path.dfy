/**
  The parts of System.IO.Path that the core calls, as string functions:
  Combine, GetFileName and GetDirectoryName, with `\` as the directory separator,
  `/` as the alternative separator and `:` as the volume separator.
 */
module SystemPath {

  predicate IsDirectorySeparator(c: char) { c == '\\' || c == '/' }

  /** The characters after which a file name starts. */
  predicate IsNameSeparator(c: char) { c == '\\' || c == '/' || c == ':' }

  /** A rooted path starts with a separator or names a drive. */
  predicate IsPathRooted(path: string) {
    (|path| >= 1 && IsDirectorySeparator(path[0])) || (|path| >= 2 && path[1] == ':')
  }

  /** Path.Combine: a rooted or empty second part wins outright; otherwise
      exactly one separator joins the two parts. */
  function Combine(path1: string, path2: string): (r: string)
    ensures path2 == [] ==> r == path1
    ensures path2 != [] && (path1 == [] || IsPathRooted(path2)) ==> r == path2
    ensures path1 != [] && path2 != [] && !IsPathRooted(path2) ==>
      r == path1 + (if IsNameSeparator(path1[|path1| - 1]) then [] else ['\\']) + path2
  {
    if path2 == [] then path1
    else if path1 == [] then path2
    else if IsPathRooted(path2) then path2
    else if IsNameSeparator(path1[|path1| - 1]) then path1 + path2
    else path1 + ['\\'] + path2
  }

  /** The position of the last character of `s` that a separator test accepts, or -1. */
  function LastIndexWhere(s: string, isSeparator: char -> bool): (r: int)
    ensures -1 <= r < |s|
    ensures r >= 0 ==> isSeparator(s[r])
    ensures forall i :: r < i < |s| ==> !isSeparator(s[i])
    decreases |s|
  {
    if s == [] then -1
    else if isSeparator(s[|s| - 1]) then |s| - 1
    else LastIndexWhere(s[..|s| - 1], isSeparator)
  }

  /** The position found is the only accepted one with nothing accepted after it. */
  lemma LastIndexAt(s: string, k: int, isSeparator: char -> bool)
    requires 0 <= k < |s| && isSeparator(s[k])
    requires forall i :: k < i < |s| ==> !isSeparator(s[i])
    ensures LastIndexWhere(s, isSeparator) == k
  {
  }

  /** Path.GetFileName: what follows the last separator. */
  function GetFileName(path: string): (r: string)
    ensures |r| <= |path| && r == path[|path| - |r|..]
    ensures forall i :: 0 <= i < |r| ==> !IsNameSeparator(r[i])
  {
    path[LastIndexWhere(path, IsNameSeparator) + 1..]
  }

  /** Path.GetDirectoryName: what precedes the last directory separator, or the empty string. */
  function GetDirectoryName(path: string): (r: string)
    ensures |r| < |path| || (r == [] && path == [])
    ensures r == path[..|r|]
  {
    var k := LastIndexWhere(path, IsDirectorySeparator);
    if k < 0 then [] else path[..k]
  }
}
