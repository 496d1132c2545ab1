/** The POSIX path helpers the application leans on: os.path.basename,
    os.path.splitext, and pathlib's PurePath.suffix and PurePath.stem. */
module Paths {

  /** Index of the last occurrence of c in s, or -1 (str.rfind). */
  function LastIndexOf(s: string, c: char): (k: int)
    ensures -1 <= k < |s|
    ensures k >= 0 ==> s[k] == c
    ensures forall i :: k < i < |s| ==> s[i] != c
  {
    if s == [] then -1
    else if s[|s| - 1] == c then |s| - 1
    else LastIndexOf(s[..|s| - 1], c)
  }

  /** os.path.basename on POSIX: everything after the last '/'. */
  function Basename(p: string): (r: string)
    ensures |r| <= |p| && r == p[|p| - |r|..]
    ensures '/' !in r
    ensures |r| < |p| ==> p[|p| - |r| - 1] == '/'
  {
    if p == [] || p[|p| - 1] == '/' then [] else Basename(p[..|p| - 1]) + [p[|p| - 1]]
  }

  /** The basename is what follows the last '/'. */
  lemma BasenameAfterSlash(p: string, k: nat)
    requires k < |p| && p[k] == '/'
    requires forall i :: k < i < |p| ==> p[i] != '/'
    ensures Basename(p) == p[k + 1..]
  {
  }

  /** os.path.splitext on POSIX. The extension starts at the last '.' of the
      last path component, unless every character before that dot in the
      component is itself a dot ("..mp3", ".bashrc" have no extension). */
  function SplitExt(p: string): (r: (string, string))
    ensures r.0 + r.1 == p
    ensures r.1 != [] ==>
      && r.1[0] == '.'
      && (forall i :: 1 <= i < |r.1| ==> r.1[i] != '.' && r.1[i] != '/')
      && (exists i :: 0 <= i < |r.0| && r.0[i] != '.' && forall j :: i <= j < |r.0| ==> r.0[j] != '/')
    ensures r.1 == [] ==>
      forall d :: LastIndexOf(p, '/') < d < |p| && p[d] == '.' ==>
        forall i :: LastIndexOf(p, '/') < i < d ==> p[i] == '.'
  {
    var sep := LastIndexOf(p, '/');
    var dot := LastIndexOf(p, '.');
    if sep < dot && exists i :: sep < i < dot && p[i] != '.' then
      assert p[..dot] + p[dot..] == p;
      (p[..dot], p[dot..])
    else
      (p, [])
  }

  /** pathlib.PurePath.suffix of a final component: from the last '.' on,
      provided that dot is neither the first nor the last character. */
  function Suffix(name: string): string {
    var i := LastIndexOf(name, '.');
    if 0 < i < |name| - 1 then name[i..] else []
  }

  /** pathlib.PurePath.stem of a final component: the name without its suffix. */
  function Stem(name: string): string {
    var i := LastIndexOf(name, '.');
    if 0 < i < |name| - 1 then name[..i] else name
  }

  /** A name is its stem followed by its suffix, and a non-empty suffix is a
      dot followed by at least one character that is not a dot. */
  lemma StemSuffix(name: string)
    ensures Stem(name) + Suffix(name) == name
    ensures Suffix(name) != [] ==>
      && |Suffix(name)| >= 2 && Suffix(name)[0] == '.'
      && (forall i :: 1 <= i < |Suffix(name)| ==> Suffix(name)[i] != '.')
      && Stem(name) != []
  {
    var i := LastIndexOf(name, '.');
    if 0 < i < |name| - 1 {
      assert name[..i] + name[i..] == name;
    }
  }
}
