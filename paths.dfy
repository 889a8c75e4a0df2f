/** The part of `os.path` the tab table uses: the file name of a path. */
module Paths {

  /** The directory separator of a POSIX path. */
  const Sep: char := '/'

  /** Index of the last separator in `p`, or -1 when there is none
      (`str.rfind`). */
  function LastSep(p: string): (i: int)
    ensures -1 <= i < |p|
    ensures i >= 0 ==> p[i] == Sep
    ensures forall j :: i < j < |p| ==> p[j] != Sep
  {
    if p == [] then -1
    else if p[|p| - 1] == Sep then |p| - 1
    else LastSep(p[..|p| - 1])
  }

  /** `os.path.basename`: the longest suffix of `p` free of separators. */
  function Basename(p: string): (b: string)
    ensures Sep !in b
    ensures |b| <= |p| && b == p[|p| - |b|..]
    ensures |b| == |p| || p[|p| - |b| - 1] == Sep
  {
    p[LastSep(p) + 1..]
  }

  /** A file name joined under any directory is what `Basename` gives back. */
  lemma {:induction false} BasenameOfJoin(dir: string, name: string)
    requires Sep !in name
    ensures Basename(dir + [Sep] + name) == name
  {
    var p := dir + [Sep] + name;
    assert p[|dir|] == Sep;
    assert forall j :: |dir| < j < |p| ==> p[j] == name[j - |dir| - 1];
    assert LastSep(p) == |dir|;
    assert p[|dir| + 1..] == name;
  }

}
