/** The filesystem as this layer sees it: a set of existing directories, each known by its
    path without trailing separators (as java.io.File normalises a path), plus the parent
    derivation of File.getParent and the directory chain File.mkdirs creates. The root
    directory has the empty key. */
module Files {
  import opened Wrappers

  /** InternalZipConstants.FILE_SEPARATOR, fixed here to the Unix separator. */
  const FileSeparator: char := '/'

  predicate EndsWithSeparator(p: string) {
    |p| > 0 && p[|p| - 1] == FileSeparator
  }

  /** The key of path p: p without its trailing separators. */
  function DirKey(p: string): (k: string)
    ensures k <= p
    ensures !EndsWithSeparator(k)
    decreases |p|
  {
    if EndsWithSeparator(p) then DirKey(p[..|p| - 1]) else p
  }

  /** DirKey removes separators only. */
  lemma {:induction false} DirKeyDropsOnlySeparators(p: string)
    ensures forall i :: |DirKey(p)| <= i < |p| ==> p[i] == FileSeparator
    decreases |p|
  {
    if EndsWithSeparator(p) {
      DirKeyDropsOnlySeparators(p[..|p| - 1]);
    }
  }

  /** The index of the last separator in p, if p has one. */
  function LastSeparator(p: string): (r: Option<nat>)
    ensures r.Some? ==> r.value < |p| && p[r.value] == FileSeparator
  {
    if |p| == 0 then None
    else if p[|p| - 1] == FileSeparator then Some(|p| - 1)
    else LastSeparator(p[..|p| - 1])
  }

  /** LastSeparator finds the last separator, and finds none only where there is none. */
  lemma {:induction false} LastSeparatorIsLast(p: string)
    ensures LastSeparator(p).Some? ==> forall i :: LastSeparator(p).value < i < |p| ==> p[i] != FileSeparator
    ensures LastSeparator(p).None? <==> forall i :: 0 <= i < |p| ==> p[i] != FileSeparator
    decreases |p|
  {
    if |p| > 0 && p[|p| - 1] != FileSeparator {
      LastSeparatorIsLast(p[..|p| - 1]);
    }
  }

  /** File.getParent of path p, as a directory key; None where Java answers null. */
  function ParentKey(p: string): (r: Option<string>)
    ensures r.Some? ==> r.value < DirKey(p) && !EndsWithSeparator(r.value)
  {
    var q := DirKey(p);
    match LastSeparator(q)
    case None => None
    case Some(i) => Some(DirKey(q[..i]))
  }

  /** Java answers null for the parent of a path exactly when its key has no separator. */
  lemma ParentKeyNone(p: string)
    ensures ParentKey(p).None? <==> forall i :: 0 <= i < |DirKey(p)| ==> DirKey(p)[i] != FileSeparator
  {
    var q := DirKey(p);
    LastSeparatorIsLast(q);
    match LastSeparator(q)
    case None =>
    case Some(i) =>
      assert ParentKey(p) == Some(DirKey(q[..i]));
      assert DirKey(p)[i] == FileSeparator;
  }

  /** Every directory File.mkdirs creates for key k: k and all its ancestors. */
  function Ancestry(k: string): (s: set<string>)
    ensures k in s
    decreases |k|
  {
    {k} + match ParentKey(k) {
      case None => {}
      case Some(pk) => Ancestry(pk)
    }
  }

  /** mkdirs creates nothing but the directory and directories above it: each is k itself
      or k cut just before one of its separators. */
  lemma {:induction false} AncestryPrefixes(k: string)
    ensures forall d :: d in Ancestry(k) ==> d <= k && (d == k || (|d| < |k| && k[|d|] == FileSeparator))
    decreases |k|
  {
    match ParentKey(k)
    case None =>
    case Some(pk) =>
      AncestryPrefixes(pk);
      var q := DirKey(k);
      var i := LastSeparator(q).value;
      assert pk == DirKey(q[..i]);
      DirKeyDropsOnlySeparators(q[..i]);
      assert |pk| < i ==> q[..i][|pk|] == FileSeparator;
      assert k[|pk|] == FileSeparator;
  }

  /** The directories that exist. */
  class FileSystem {
    var dirs: set<string>

    constructor (existing: set<string>)
      ensures dirs == existing
    {
      dirs := existing;
    }

    /** File.exists for path p. */
    predicate Exists(p: string)
      reads this
    {
      DirKey(p) in dirs
    }

    /** File.mkdirs for path p. */
    method MkDirs(p: string)
      modifies this`dirs
      ensures dirs == old(dirs) + Ancestry(DirKey(p))
    {
      dirs := dirs + Ancestry(DirKey(p));
    }
  }
}
