/**
 A wiki page path: the sequence of simple page names leading from the root
 to a page. The text syntax of qualified names (dots, relative prefixes) is
 not modelled; a path here is what parsing a qualified name produces.
 */
module Paths {

  type Name = string

  type Path = seq<Name>

  /** The page name that the responder refuses to rename. */
  const FrontPage: Name := "FrontPage"

  /** True iff `p` is an initial segment of `q`. */
  predicate IsPrefix(p: Path, q: Path) {
    |p| <= |q| && q[..|p|] == p
  }

  /** The last name of a non-empty path. */
  function Last(p: Path): Name
    requires |p| > 0
  {
    p[|p| - 1]
  }

  /**
   Drops the last name of the path; an empty path stays empty. This is both
   `parentPath()` and `removeNameFromEnd()` of a page path.
   */
  function RemoveNameFromEnd(p: Path): (r: Path)
    ensures |p| > 0 ==> |r| == |p| - 1 && r + [Last(p)] == p
    ensures |p| == 0 ==> r == []
  {
    if |p| == 0 then [] else p[..|p| - 1]
  }

  /** The parent of the page at `p`: the root's parent is the root itself. */
  function ParentPath(p: Path): (r: Path)
    ensures IsPrefix(r, p)
    ensures |p| > 0 ==> |r| == |p| - 1
  {
    RemoveNameFromEnd(p)
  }

  /** The path after a rename: the last name is replaced by `newName`. */
  function WithLastName(p: Path, newName: Name): (r: Path)
    ensures |r| == |RemoveNameFromEnd(p)| + 1
    ensures |p| > 0 ==> |r| == |p| && r[..|p| - 1] == p[..|p| - 1]
    ensures Last(r) == newName
    ensures ParentPath(r) == ParentPath(p)
  {
    RemoveNameFromEnd(p) + [newName]
  }

  /** Renaming a page back to its old name gives back the path it started at. */
  lemma WithLastNameRoundTrip(p: Path, newName: Name)
    requires |p| > 0
    ensures WithLastName(WithLastName(p, newName), Last(p)) == p
  {
  }

  /** Two paths that start alike are prefix-related iff their tails are. */
  lemma PrefixTail(p: Path, q: Path)
    requires |p| > 0 && |q| > 0 && p[0] == q[0]
    ensures IsPrefix(p, q) <==> IsPrefix(p[1..], q[1..])
  {
    if IsPrefix(p[1..], q[1..]) {
      assert q[..|p|] == [q[0]] + q[1..][..|p| - 1];
      assert p == [p[0]] + p[1..];
    }
  }
}
