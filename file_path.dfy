/** System.IO.Path on a Unix host, where '/' is the only directory separator:
    GetFileName, GetDirectoryName and the folder name the parsers derive from them. */
module FilePath {
  import opened Wrappers

  const Separator: char := '/'

  predicate NoSeparator(s: string) {
    forall i :: 0 <= i < |s| ==> s[i] != Separator
  }

  /** Path.GetFileName: everything after the last separator (the whole path when there
      is none). */
  function FileName(p: string): (r: string)
    ensures |r| <= |p|
    ensures NoSeparator(r)
    ensures |r| < |p| ==> p[|p| - |r| - 1] == Separator
    decreases |p|
  {
    if p == [] || p[|p| - 1] == Separator then []
    else FileName(p[..|p| - 1]) + [p[|p| - 1]]
  }

  /** The file name is the end of the path. */
  lemma {:induction false} FileNameIsSuffix(p: string)
    ensures FileName(p) == p[|p| - |FileName(p)|..]
    decreases |p|
  {
    if p != [] && p[|p| - 1] != Separator {
      var q := p[..|p| - 1];
      FileNameIsSuffix(q);
      assert p[|p| - |FileName(p)|..] == q[|q| - |FileName(q)|..] + [p[|p| - 1]];
    }
  }

  /** One position past the last separator in p[..end] that lies after the root, or the
      root length when there is none (the first loop of GetDirectoryName). */
  function LastSeparatorBefore(p: string, root: nat, end: nat): (r: nat)
    requires root <= end <= |p|
    ensures root <= r <= end
    ensures r > root ==> p[r - 1] == Separator
    ensures forall i :: r <= i < end ==> p[i] != Separator
    decreases end
  {
    if end == root then root
    else if p[end - 1] == Separator then end
    else LastSeparatorBefore(p, root, end - 1)
  }

  /** Drops the separators that end p[..end], never going below the root (the second loop
      of GetDirectoryName). */
  function TrimSeparatorsBefore(p: string, root: nat, end: nat): (r: nat)
    requires root <= end <= |p|
    ensures root <= r <= end
    ensures r > root ==> p[r - 1] != Separator
    ensures forall i :: r <= i < end ==> p[i] == Separator
    decreases end
  {
    if end > root && p[end - 1] == Separator then TrimSeparatorsBefore(p, root, end - 1) else end
  }

  /** Path.GetDirectoryName: null for the empty path and for the root itself; otherwise
      the path up to its last separator, without the separators in front of the last
      name. */
  function DirectoryName(p: string): (r: Option<string>)
    ensures r.Some? ==> |r.value| < |p| && r.value == p[..|r.value|]
  {
    var root := if p != [] && p[0] == Separator then 1 else 0;
    if |p| <= root then None
    else
      var k := LastSeparatorBefore(p, root, |p|);
      var e := if k > root then TrimSeparatorsBefore(p, root, k - 1) else root;
      Some(p[..e])
  }

  /** The name of the folder holding the file: `Path.GetFileName(Path.GetDirectoryName(p))`,
      with a null directory read as "". */
  function FolderName(p: string): string {
    match DirectoryName(p)
    case None => ""
    case Some(d) => FileName(d)
  }

  /** The file name of "<dir>/<name>" is the name. */
  lemma {:induction false} FileNameOfJoin(d: string, n: string)
    requires NoSeparator(n)
    ensures FileName(d + [Separator] + n) == n
    decreases |n|
  {
    var p := d + [Separator] + n;
    if n != [] {
      assert p[..|p| - 1] == d + [Separator] + n[..|n| - 1];
      FileNameOfJoin(d, n[..|n| - 1]);
      assert n == n[..|n| - 1] + [n[|n| - 1]];
    } else {
      assert p[|p| - 1] == Separator;
    }
  }

  /** In a path whose last separator sits at position j, the search for it stops just
      past j. */
  lemma {:induction false} LastSeparatorAt(p: string, root: nat, end: nat, j: nat)
    requires root <= j < end <= |p| && p[j] == Separator
    requires forall i :: j < i < end ==> p[i] != Separator
    ensures LastSeparatorBefore(p, root, end) == j + 1
    decreases end
  {
    if end - 1 != j {
      LastSeparatorAt(p, root, end - 1, j);
    }
  }

  /** The directory of "<q>/<f>" is q when q does not end in a separator. */
  lemma DirectoryOfJoin(q: string, f: string)
    requires q != [] && q[|q| - 1] != Separator && NoSeparator(f)
    ensures DirectoryName(q + [Separator] + f) == Some(q)
  {
    var p := q + [Separator] + f;
    var root := if p[0] == Separator then 1 else 0;
    assert root <= |q|;
    assert forall i :: |q| < i < |p| ==> p[i] == f[i - |q| - 1];
    LastSeparatorAt(p, root, |p|, |q|);
    assert p[|q| - 1] == q[|q| - 1];
    assert TrimSeparatorsBefore(p, root, |q|) == |q|;
    assert p[..|q|] == q;
  }

  /** A file in "<dir>/<name>/" lies in the folder called name, whatever dir is. */
  lemma FolderNameOfNested(d: string, n: string, f: string)
    requires n != [] && NoSeparator(n) && NoSeparator(f)
    ensures FolderName(d + [Separator] + n + [Separator] + f) == n
  {
    var q := d + [Separator] + n;
    assert q[|q| - 1] == n[|n| - 1];
    DirectoryOfJoin(q, f);
    FileNameOfJoin(d, n);
  }
}
