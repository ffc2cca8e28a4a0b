/** `os.path.basename` on POSIX: everything after the last slash. */
module PosixPath {

  /** `p.rfind('/')`: the index of the last slash, or -1 when there is none. */
  function RFindSlash(p: string): (i: int)
    ensures -1 <= i < |p|
    ensures i >= 0 ==> p[i] == '/'
    ensures forall j :: i < j < |p| ==> p[j] != '/'
  {
    if p == [] then -1
    else if p[|p| - 1] == '/' then |p| - 1
    else RFindSlash(p[..|p| - 1])
  }

  /** `os.path.basename(p)`: empty when p ends in a slash. */
  function Basename(p: string): (b: string)
    ensures forall j :: 0 <= j < |b| ==> b[j] != '/'
    ensures |b| <= |p| && p[|p| - |b|..] == b
  {
    p[RFindSlash(p) + 1..]
  }

  /** The directory part that `Basename` drops: empty, or ending in a slash. */
  function DirPart(p: string): (d: string)
  {
    p[..RFindSlash(p) + 1]
  }

  /**
   * Basename and directory part split the path, and they are the only such
   * split: any directory (empty or slash-terminated) followed by a slash-free
   * name is exactly this one.
   */
  lemma SplitUnique(p: string, d: string, b: string)
    requires p == d + b
    requires d == [] || d[|d| - 1] == '/'
    requires forall j :: 0 <= j < |b| ==> b[j] != '/'
    ensures d == DirPart(p) && b == Basename(p)
  {
    var i := RFindSlash(p);
    if d != [] {
      assert p[|d| - 1] == '/';
    }
    assert i + 1 == |d|;
  }

  lemma SplitParts(p: string)
    ensures p == DirPart(p) + Basename(p)
    ensures DirPart(p) == [] || DirPart(p)[|DirPart(p)| - 1] == '/'
  {
  }
}
