/**
 * The file system as the core sees it: a set of existing files, a set of
 * existing directories, and the files whose deletion fails with an
 * IOException. Paths are compared in canonical form, because Windows takes
 * '/' and '\' alike as a separator and the cached image path comes back
 * from a Uri, which writes '/'.
 */
module Files {
  import opened Text

  function CanonChar(c: char): char {
    if c == '\\' then '/' else c
  }

  /** The canonical form of a path: every '\' written as '/'. */
  function Canon(p: string): (r: string)
    ensures |r| == |p|
    ensures forall i :: 0 <= i < |p| ==> r[i] == CanonChar(p[i])
  {
    if p == [] then [] else [CanonChar(p[0])] + Canon(p[1..])
  }

  predicate IsCanonical(p: string) {
    forall i :: 0 <= i < |p| ==> p[i] != '\\'
  }

  lemma CanonIsCanonical(p: string)
    ensures IsCanonical(Canon(p))
  {
  }

  lemma CanonOfCanonical(p: string)
    requires IsCanonical(p)
    ensures Canon(p) == p
  {
  }

  lemma CanonConcat(a: string, b: string)
    ensures Canon(a + b) == Canon(a) + Canon(b)
  {
  }

  const UriScheme := "file:///"

  /** new Uri(p).ToString() for an absolute local path p. */
  function UriString(p: string): string {
    UriScheme + Canon(p)
  }

  /**
   * Removing every "file:///" from the Uri string of a path gives back the
   * path in canonical form, provided the path itself has no "file:///" in it.
   */
  lemma LocalPathOfUri(p: string)
    requires !ContainsText(Canon(p), UriScheme)
    ensures Replace(UriString(p), UriScheme, "") == Canon(p)
  {
    ReplaceLeading(UriScheme, Canon(p), "");
    ReplaceWithoutOccurrence(Canon(p), UriScheme, "");
  }

  const TempPrefix := "mousePath.temp."

  /** The name of an automatic snapshot: <folder>mousePath.temp.<ticks>.png. */
  function TempFileName(folder: string, ticks: nat): string {
    folder + SnapshotName(ticks)
  }

  /** A file name proper: no separator in it. */
  predicate IsPlainName(name: string) {
    forall i :: 0 <= i < |name| ==> name[i] != '/' && name[i] != '\\'
  }

  /** The wildcard pattern "mousePath.temp.*". */
  predicate MatchesTempPattern(name: string) {
    |TempPrefix| <= |name| && name[..|TempPrefix|] == TempPrefix
  }

  /**
   * Directory.GetFiles(folder, "mousePath.temp.*") lists the file `f`: it is
   * directly in `folder` (which ends with a separator) and its name matches.
   */
  predicate IsTempSnapshotIn(f: string, folder: string) {
    var d := Canon(folder);
    |d| <= |f| && f[..|d|] == d && IsPlainName(f[|d|..]) && MatchesTempPattern(f[|d|..])
  }

  /** The files Directory.GetFiles(folder, "mousePath.temp.*") returns. */
  function TempSnapshots(files: set<string>, folder: string): set<string> {
    set f | f in files && IsTempSnapshotIn(f, folder)
  }

  /** The name part of an automatic snapshot. */
  function SnapshotName(ticks: nat): string {
    TempPrefix + NatToString(ticks) + ".png"
  }

  lemma PlainConcat(a: string, b: string)
    requires IsPlainName(a) && IsPlainName(b)
    ensures IsPlainName(a + b)
  {
  }

  lemma PlainIsCanonical(p: string)
    requires IsPlainName(p)
    ensures Canon(p) == p
  {
    CanonOfCanonical(p);
  }

  lemma SnapshotNameIsPlain(ticks: nat)
    ensures IsPlainName(SnapshotName(ticks))
    ensures MatchesTempPattern(SnapshotName(ticks))
  {
    var digits := NatToString(ticks);
    assert IsPlainName(TempPrefix);
    assert IsPlainName(digits);
    assert IsPlainName(".png");
    PlainConcat(TempPrefix, digits);
    PlainConcat(TempPrefix + digits, ".png");
    assert SnapshotName(ticks)[..|TempPrefix|] == TempPrefix;
  }

  /** Every automatic snapshot name is one that the cleanup pattern lists. */
  lemma TempFileNameIsSnapshot(folder: string, ticks: nat)
    ensures IsTempSnapshotIn(Canon(TempFileName(folder, ticks)), folder)
  {
    var name := SnapshotName(ticks);
    assert TempFileName(folder, ticks) == folder + name;
    CanonConcat(folder, name);
    SnapshotNameIsPlain(ticks);
    PlainIsCanonical(name);
    var f := Canon(folder) + name;
    assert f[..|Canon(folder)|] == Canon(folder);
    assert f[|Canon(folder)|..] == name;
  }

  /** A listed snapshot path is already canonical. */
  /**
   * An automatic snapshot that exists is among the files the cleanup lists,
   * and every listed path is the canonical path that deleting it removes.
   */
  lemma ExistingSnapshotIsListed(files: set<string>, folder: string, ticks: nat)
    requires Canon(TempFileName(folder, ticks)) in files
    ensures Canon(TempFileName(folder, ticks)) in TempSnapshots(files, folder)
    ensures forall f :: f in TempSnapshots(files, folder) ==> Canon(f) == f
  {
    TempFileNameIsSnapshot(folder, ticks);
    forall f | f in TempSnapshots(files, folder) ensures Canon(f) == f {
      SnapshotIsCanonical(f, folder);
    }
  }

  lemma SnapshotIsCanonical(f: string, folder: string)
    requires IsTempSnapshotIn(f, folder)
    ensures Canon(f) == f
  {
    var d := Canon(folder);
    assert f == d + f[|d|..];
    CanonIsCanonical(folder);
    assert IsCanonical(f);
    CanonOfCanonical(f);
  }

  lemma SnapshotNamesDiffer(t1: nat, t2: nat)
    requires t1 != t2
    ensures SnapshotName(t1) != SnapshotName(t2)
  {
    NatToStringInjective(t1, t2);
    var n1, n2, k := SnapshotName(t1), SnapshotName(t2), |TempPrefix|;
    assert n1[k..|n1| - 4] == NatToString(t1);
    assert n2[k..|n2| - 4] == NatToString(t2);
  }

  /** Two snapshots taken at different ticks go to different files. */
  lemma TempFileNamesDiffer(folder: string, t1: nat, t2: nat)
    requires t1 != t2
    ensures Canon(TempFileName(folder, t1)) != Canon(TempFileName(folder, t2))
  {
    var n1, n2 := SnapshotName(t1), SnapshotName(t2);
    CanonConcat(folder, n1);
    CanonConcat(folder, n2);
    SnapshotNameIsPlain(t1);
    SnapshotNameIsPlain(t2);
    PlainIsCanonical(n1);
    PlainIsCanonical(n2);
    SnapshotNamesDiffer(t1, t2);
    var d := |Canon(folder)|;
    assert (Canon(folder) + n1)[d..] == n1;
    assert (Canon(folder) + n2)[d..] == n2;
  }

  /** The paths that deleting `paths` one by one removes: those not held open. */
  function Deletable(paths: seq<string>, locked: set<string>): set<string> {
    set p | p in paths && Canon(p) !in locked :: Canon(p)
  }

  class FileSystem {
    /** Canonical paths of the existing files. */
    var files: set<string>
    /** Canonical paths of the existing directories, each with its trailing separator. */
    var dirs: set<string>
    /** Files whose deletion raises an IOException (for instance, open elsewhere). */
    const locked: set<string>

    constructor(files: set<string>, dirs: set<string>, locked: set<string>)
      ensures this.files == files && this.dirs == dirs && this.locked == locked
    {
      this.files := files;
      this.dirs := dirs;
      this.locked := locked;
    }

    /** File.Exists */
    predicate Exists(p: string)
      reads this
    {
      Canon(p) in files
    }

    /** Directory.Exists */
    predicate DirectoryExists(d: string)
      reads this
    {
      Canon(d) in dirs
    }

    /** DirectoryInfo.Create: nothing happens when the directory exists. */
    method CreateDirectory(d: string)
      modifies this
      ensures dirs == old(dirs) + {Canon(d)}
      ensures files == old(files)
    {
      dirs := dirs + {Canon(d)};
    }

    /** The PNG write of Export.ToPng, as an opaque step: the file exists afterwards. */
    method WritePng(p: string)
      modifies this
      ensures files == old(files) + {Canon(p)}
      ensures dirs == old(dirs)
    {
      files := files + {Canon(p)};
    }

    /**
     * File.Delete: removes the file, does nothing for a missing one, and
     * reports the IOException of a locked one instead of removing it.
     */
    method Delete(p: string) returns (ioError: bool)
      modifies this
      ensures ioError == (Canon(p) in old(files) && Canon(p) in locked)
      ensures files == if ioError then old(files) else old(files) - {Canon(p)}
      ensures dirs == old(dirs)
    {
      ioError := Canon(p) in files && Canon(p) in locked;
      if !ioError {
        files := files - {Canon(p)};
      }
    }
  }
}
