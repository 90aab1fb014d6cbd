/**
 Moving a page: the subtree at one path is hung, under the same name, below
 another page. This is all the rename needs of the move-page responder,
 whose own internals are not part of this model.
 */
module Move {
  import opened Paths
  import opened Wiki

  /**
   Relocates the page at `src`, with its whole subtree, to be the child
   `Last(src)` of the page at `newParent`. A `src` that does not resolve
   leaves the tree as it is. Otherwise the moved page is found below the new
   parent (unless that parent lies inside the moved subtree), the old path
   finds nothing when it is unrelated to the new parent, and every path
   unrelated to both the old and the new parent finds what it found before.
   */
  function MovePage(root: Page, src: Path, newParent: Path): (r: Page)
    requires |src| > 0
    ensures Resolve(root, src).None? ==> r == root
    ensures Resolve(root, src).Some? && Resolve(root, newParent).Some? && !IsPrefix(src, newParent) ==>
              Resolve(r, newParent + [Last(src)]) == Resolve(root, src)
    ensures Resolve(root, src).Some? && !IsPrefix(src, newParent) && !IsPrefix(newParent, src) ==>
              Resolve(r, src).None?
    ensures forall q :: && !IsPrefix(ParentPath(src), q) && !IsPrefix(q, ParentPath(src))
                        && !IsPrefix(newParent, q) && !IsPrefix(q, newParent)
                        ==> Resolve(r, q) == Resolve(root, q)
  {
    match Resolve(root, src)
    case None => root
    case Some(movee) =>
      var from := ParentPath(src);
      var r := Attach(Detach(root, from, Last(src)), newParent, Last(src), movee);
      ResolvePrefix(root, from, src);
      assert from + [Last(src)] == src;
      if Resolve(root, newParent).Some? && !IsPrefix(src, newParent) then
        DetachKeepsOtherPaths(root, from, Last(src), newParent);
        r
      else
        r
  }

  /** Removing the child `name` of the page at `at` keeps every path that does not pass through it. */
  lemma DetachKeepsOtherPaths(root: Page, at: Path, name: Name, q: Path)
    requires Resolve(root, at).Some? && Resolve(root, q).Some?
    requires !IsPrefix(at + [name], q)
    ensures Resolve(Detach(root, at, name), q).Some?
  {
    var parent := Resolve(root, at).value;
    var parent' := parent.(children := parent.children - {name});
    if IsPrefix(at, q) {
      var rest := q[|at|..];
      assert q == at + rest;
      ResolvePutBelow(root, at, rest, parent');
      ResolveAppend(root, at, rest);
      if |rest| > 0 {
        assert q[..|at| + 1] == at + [rest[0]];
      }
    } else if IsPrefix(q, at) {
      if |q| < |at| {
        ResolvePutAbove(root, at, q, parent');
      }
    } else {
      ResolvePutAside(root, at, q, parent');
    }
  }
}
