/** The two `os.path` functions the scripts use, for POSIX paths. */
module Paths {

  /** `os.path.join(dir, name)`: an absolute `name` wins; otherwise one `/` separates the two. */
  function JoinPath(dir: string, name: string): string {
    if |name| > 0 && name[0] == '/' then name
    else if dir == [] || dir[|dir| - 1] == '/' then dir + name
    else dir + "/" + name
  }

  /** The prefix `JoinPath` puts in front of a relative name. */
  function DirPrefix(dir: string): string {
    if dir == [] || dir[|dir| - 1] == '/' then dir else dir + "/"
  }

  /** Joining relative names to one directory is injective: distinct names give distinct paths. */
  lemma JoinPathInjective(dir: string, n1: string, n2: string)
    requires n1 == [] || n1[0] != '/'
    requires n2 == [] || n2[0] != '/'
    requires JoinPath(dir, n1) == JoinPath(dir, n2)
    ensures n1 == n2
  {
    var p := DirPrefix(dir);
    assert n1 == (p + n1)[|p|..] && n2 == (p + n2)[|p|..];
  }

  /** The index of the last occurrence of `c` in `s`, or -1. */
  function LastIndexOf(s: string, c: char): (i: int)
    ensures -1 <= i < |s|
    ensures i >= 0 ==> s[i] == c
    ensures forall k :: i < k < |s| ==> s[k] != c
    decreases |s|
  {
    if s == [] then -1
    else if s[|s| - 1] == c then |s| - 1
    else LastIndexOf(s[..|s| - 1], c)
  }

  /**
    The root part of `os.path.splitext(p)`: everything before the last `.` of
    the last path component, unless that component holds only dots before it
    (so `.pdf` and `..pdf` have no extension), in which case `p` itself.
   */
  function SplitExtRoot(p: string): string {
    var sepIndex := LastIndexOf(p, '/');
    var dotIndex := LastIndexOf(p, '.');
    if dotIndex > sepIndex && exists k :: sepIndex + 1 <= k < dotIndex && p[k] != '.'
    then p[..dotIndex]
    else p
  }
}
