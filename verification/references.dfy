/**
 The reference rewrite that a rename may request. The token matching of the
 page reference renamer is not part of this model: it is a content
 transform, applied to the data of every page reachable from the root, that
 may depend on which page is renamed, on the new name and on where the
 scanned page sits. The rewrite touches page data only, never the tree's
 shape.
 */
module References {
  import opened Paths
  import opened Wiki

  /**
   The content transform: (path of the page being renamed, its new name,
   path of the page scanned, that page's data) to the scanned page's new data.
   */
  type ReferenceRenamer = (Path, Name, Path, PageData) -> PageData

  /** Rewrites the subtree `page`, which sits at path `at` from the root. */
  function RenameReferencesBelow(page: Page, at: Path, renamed: Path, newName: Name, renamer: ReferenceRenamer): Page
  {
    Page(renamer(renamed, newName, at, page.data),
         map c | c in page.children :: RenameReferencesBelow(page.children[c], at + [c], renamed, newName, renamer))
  }

  /**
   Rewrites references to the page at `renamed` in every page of the wiki.
   The wiki keeps its shape: a path resolves afterwards iff it resolved
   before, to a page with the same child names, and each page's data is the
   transform of its old data at that page's own path.
   */
  function RenameReferences(root: Page, renamed: Path, newName: Name, renamer: ReferenceRenamer): (r: Page)
    ensures forall q :: Resolve(r, q).Some? <==> Resolve(root, q).Some?
    ensures forall q :: Resolve(root, q).Some? ==>
              && Resolve(r, q).Some?
              && Resolve(r, q).value.data == renamer(renamed, newName, q, Resolve(root, q).value.data)
              && Resolve(r, q).value.children.Keys == Resolve(root, q).value.children.Keys
  {
    RenameReferencesFromRoot(root, renamed, newName, renamer);
    RenameReferencesBelow(root, [], renamed, newName, renamer)
  }

  /**
   Below the page at `at`, the rewritten tree has a page at exactly the
   relative paths the original has, and each carries the transform of the
   original page's data at its own full path.
   */
  lemma {:induction false} RenameReferencesBelowResolve(page: Page, at: Path, renamed: Path, newName: Name,
                                                       renamer: ReferenceRenamer, q: Path)
    ensures Resolve(RenameReferencesBelow(page, at, renamed, newName, renamer), q).Some?
        <==> Resolve(page, q).Some?
    ensures Resolve(page, q).Some? ==>
              Resolve(RenameReferencesBelow(page, at, renamed, newName, renamer), q).value
              == RenameReferencesBelow(Resolve(page, q).value, at + q, renamed, newName, renamer)
    decreases |q|
  {
    if |q| == 0 {
      assert at + q == at;
    } else if q[0] in page.children {
      assert at + q == (at + [q[0]]) + q[1..];
      RenameReferencesBelowResolve(page.children[q[0]], at + [q[0]], renamed, newName, renamer, q[1..]);
    }
  }

  /** The path-by-path facts of `RenameReferencesBelowResolve`, for the whole wiki. */
  lemma RenameReferencesFromRoot(root: Page, renamed: Path, newName: Name, renamer: ReferenceRenamer)
    ensures forall q :: Resolve(RenameReferencesBelow(root, [], renamed, newName, renamer), q).Some?
                        <==> Resolve(root, q).Some?
    ensures forall q :: Resolve(root, q).Some? ==>
              && Resolve(RenameReferencesBelow(root, [], renamed, newName, renamer), q).Some?
              && Resolve(RenameReferencesBelow(root, [], renamed, newName, renamer), q).value
                 == RenameReferencesBelow(Resolve(root, q).value, q, renamed, newName, renamer)
  {
    forall q
      ensures Resolve(RenameReferencesBelow(root, [], renamed, newName, renamer), q).Some?
              <==> Resolve(root, q).Some?
      ensures Resolve(root, q).Some? ==>
                Resolve(RenameReferencesBelow(root, [], renamed, newName, renamer), q).value
                == RenameReferencesBelow(Resolve(root, q).value, q, renamed, newName, renamer)
    {
      RenameReferencesBelowResolve(root, [], renamed, newName, renamer, q);
      assert [] + q == q;
    }
  }

  /**
   A transform that leaves the data of every page of the subtree alone, each
   at its own full path, leaves the whole subtree as it was.
   */
  lemma {:induction false} RenameReferencesBelowUnchanged(page: Page, at: Path, renamed: Path, newName: Name,
                                                         renamer: ReferenceRenamer)
    requires forall q :: Resolve(page, q).Some? ==>
               renamer(renamed, newName, at + q, Resolve(page, q).value.data) == Resolve(page, q).value.data
    ensures RenameReferencesBelow(page, at, renamed, newName, renamer) == page
    decreases page
  {
    assert Resolve(page, []) == Some(page);
    assert at + [] == at;
    forall c | c in page.children
      ensures RenameReferencesBelow(page.children[c], at + [c], renamed, newName, renamer) == page.children[c]
    {
      var child := page.children[c];
      forall q | Resolve(child, q).Some?
        ensures renamer(renamed, newName, (at + [c]) + q, Resolve(child, q).value.data) == Resolve(child, q).value.data
      {
        assert ([c] + q)[0] == c && ([c] + q)[1..] == q;
        assert Resolve(page, [c] + q) == Resolve(child, q);
        assert at + ([c] + q) == (at + [c]) + q;
      }
      RenameReferencesBelowUnchanged(child, at + [c], renamed, newName, renamer);
    }
    var kids := map c | c in page.children :: RenameReferencesBelow(page.children[c], at + [c], renamed, newName, renamer);
    assert kids == page.children;
  }

  /**
   When the transform leaves every page of the wiki alone (no page holds a
   reference to rewrite), the wiki is left exactly as it was.
   */
  lemma RenameReferencesUnchanged(root: Page, renamed: Path, newName: Name, renamer: ReferenceRenamer)
    requires forall q :: Resolve(root, q).Some? ==>
               renamer(renamed, newName, q, Resolve(root, q).value.data) == Resolve(root, q).value.data
    ensures RenameReferences(root, renamed, newName, renamer) == root
  {
    forall q | Resolve(root, q).Some?
      ensures renamer(renamed, newName, [] + q, Resolve(root, q).value.data) == Resolve(root, q).value.data
    {
      assert [] + q == q;
    }
    RenameReferencesBelowUnchanged(root, [], renamed, newName, renamer);
  }
}
