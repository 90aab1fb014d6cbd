/**
 The rename-page responder: validation of the request, lookup of the page
 and its parent, the collision check, the optional reference rewrite, the
 structural rename and the path it redirects to. Wiki-word syntax is the
 caller's predicate `isSingleWikiWord`; the state of the wiki is threaded
 through as a value.
 */
module Rename {
  import opened Paths
  import opened Wiki
  import opened Move
  import opened References
  import opened Rekey

  /**
   A rename request: the page's path, the `newName` input (absent when the
   request has none) and whether the `refactorReferences` input is present.
   */
  datatype Request = Request(resource: Path, newName: Option<Name>, refactorReferences: bool)

  /** The responder's outcomes: a redirect to the renamed page, or one of three errors. */
  datatype Response = Renamed(path: Path) | InvalidName | NotFound | AlreadyExists

  /** The request names a single wiki word as new name and does not try to rename the front page. */
  predicate ValidRequest(request: Request, isSingleWikiWord: Name -> bool) {
    && request.newName.Some?
    && isSingleWikiWord(request.newName.value)
    && request.resource != [FrontPage]
  }

  /** The name of the page at `path`; the root page has a name of its own, `rootName`. */
  function PageName(path: Path, rootName: Name): (n: Name)
    ensures |path| > 0 ==> path == ParentPath(path) + [n]
  {
    if |path| == 0 then rootName else Last(path)
  }

  /** The wiki as the structural rename sees it: after the reference rewrite when one is asked for. */
  function Scanned(root: Page, pathToRename: Path, newName: Name, refactorReferences: bool,
                   renamer: ReferenceRenamer): Page
  {
    if refactorReferences then RenameReferences(root, pathToRename, newName, renamer) else root
  }

  /**
   Once the page is found and its parent has no child under the new name,
   the structural rename applies to the wiki as the reference rewrite leaves
   it; only a request for the root page can skip it.
   */
  lemma RenameApplies(root: Page, request: Request, rootName: Name, renamer: ReferenceRenamer)
    requires request.newName.Some? && |request.resource| > 0
    requires Resolve(root, request.resource).Some?
    requires Resolve(root, ParentPath(request.resource)).Some?
    requires request.newName.value !in Resolve(root, ParentPath(request.resource)).value.children
    ensures CanRename(Scanned(root, request.resource, request.newName.value, request.refactorReferences, renamer), ParentPath(request.resource),
                      PageName(request.resource, rootName), request.newName.value)
  {
    var parentPath := ParentPath(request.resource);
    var oldName := PageName(request.resource, rootName);
    var parent := Resolve(root, parentPath).value;
    ResolveAppend(root, parentPath, [oldName]);
    ResolveChild(parent, oldName);
  }

  /**
   The path the responder redirects to finds the renamed page: its children
   are the old page's, its data is the old page's (as rewritten, when a
   rewrite was asked for, at the page's old path), and the old path finds
   nothing.
   */
  lemma RedirectFindsRenamedPage(root: Page, request: Request, rootName: Name, renamer: ReferenceRenamer)
    requires request.newName.Some? && |request.resource| > 0
    requires Resolve(root, request.resource).Some?
    requires Resolve(root, ParentPath(request.resource)).Some?
    requires request.newName.value !in Resolve(root, ParentPath(request.resource)).value.children
    ensures
      var path := request.resource;
      var newName := request.newName.value;
      var scanned := Scanned(root, path, newName, request.refactorReferences, renamer);
      var before := Resolve(root, path).value;
      && CanRename(scanned, ParentPath(path), PageName(path, rootName), newName)
      && var renamed := ReKey(scanned, ParentPath(path), PageName(path, rootName), newName);
      && Resolve(renamed, path).None?
      && Resolve(renamed, WithLastName(path, newName)).Some?
      && Resolve(renamed, WithLastName(path, newName)).value.children.Keys == before.children.Keys
      && Resolve(renamed, WithLastName(path, newName)).value.data
         == if request.refactorReferences then renamer(path, newName, path, before.data) else before.data
  {
    var path := request.resource;
    var newName := request.newName.value;
    var parentPath := ParentPath(path);
    var oldName := PageName(path, rootName);
    var scanned := Scanned(root, path, newName, request.refactorReferences, renamer);
    RenameApplies(root, request, rootName, renamer);
    RenamedSubtreeMoves(scanned, parentPath, oldName, newName, []);
    OldSubtreeGone(scanned, parentPath, oldName, newName, []);
    assert parentPath + [newName] + [] == WithLastName(path, newName);
    assert parentPath + [oldName] + [] == path;
  }

  /**
   Renames the child `oldName` of the page at `parentPath` to `newName`: a
   new child is added and given the old page's data, each child of the old
   page is moved below it, and the old page is removed. Nothing happens, and
   false is returned, when the parent lacks `oldName` or already has `newName`.
   */
  method RenamePage(root: Page, parentPath: Path, oldName: Name, newName: Name) returns (renamed: bool, root': Page)
    requires Resolve(root, parentPath).Some?
    ensures renamed <==> oldName in Resolve(root, parentPath).value.children
                         && newName !in Resolve(root, parentPath).value.children
    ensures !renamed ==> root' == root
    ensures renamed ==> root' == ReKey(root, parentPath, oldName, newName)
  {
    var parent := Resolve(root, parentPath).value;
    if oldName !in parent.children || newName in parent.children {
      return false, root;
    }
    var original := parent.children[oldName];
    root' := Attach(root, parentPath, newName, Page(NewPageData, map[]));
    root' := Commit(root', parentPath + [newName], original.data);
    StartMigration(root, parentPath, oldName, newName);
    var pending := original.children.Keys;
    var moved: set<Name> := {};
    while pending != {}
      invariant pending !! moved && pending + moved == original.children.Keys
      invariant root' == Migrating(root, parentPath, oldName, newName, moved)
      decreases pending
    {
      var child :| child in pending;
      var src := parentPath + [oldName, child];
      assert ParentPath(src) == parentPath + [oldName] && Last(src) == child;
      MigrateChild(root, parentPath, oldName, newName, moved, child);
      root' := MovePage(root', src, parentPath + [newName]);
      pending := pending - {child};
      moved := moved + {child};
    }
    FinishMigration(root, parentPath, oldName, newName);
    root' := Detach(root', parentPath, oldName);
    renamed := true;
  }

  /**
   Rewrites references first when asked to, then renames the page, and
   answers with the page's path whose last name is replaced by the new
   name, whether or not the structural rename applied.
   */
  method RenamePageAndMaybeAllReferences(root: Page, pathToRename: Path, oldName: Name, newName: Name,
                                         refactorReferences: bool, renamer: ReferenceRenamer)
    returns (root': Page, qualifiedName: Path)
    requires Resolve(root, ParentPath(pathToRename)).Some?
    ensures qualifiedName == WithLastName(pathToRename, newName)
    ensures
      var scanned := Scanned(root, pathToRename, newName, refactorReferences, renamer);
      root' == if CanRename(scanned, ParentPath(pathToRename), oldName, newName)
               then ReKey(scanned, ParentPath(pathToRename), oldName, newName)
               else scanned
  {
    root' := root;
    if refactorReferences {
      root' := RenameReferences(root, pathToRename, newName, renamer);
    }
    var renamed;
    renamed, root' := RenamePage(root', ParentPath(pathToRename), oldName, newName);
    qualifiedName := WithLastName(pathToRename, newName);
  }

  /**
   Handles one rename request against the wiki `root`, whose root page is
   named `rootName`. Errors leave the wiki as it was; a rename answers with
   the new path of the page.
   */
  method MakeResponse(root: Page, request: Request, isSingleWikiWord: Name -> bool, rootName: Name,
                      renamer: ReferenceRenamer)
    returns (response: Response, root': Page)
    ensures response == InvalidName <==> !ValidRequest(request, isSingleWikiWord)
    ensures response == NotFound <==>
              ValidRequest(request, isSingleWikiWord) && Resolve(root, request.resource).None?
    ensures response == AlreadyExists <==>
              && ValidRequest(request, isSingleWikiWord)
              && Resolve(root, request.resource).Some?
              && Resolve(root, ParentPath(request.resource)).Some?
              && request.newName.value in Resolve(root, ParentPath(request.resource)).value.children
    ensures !response.Renamed? ==> root' == root
    ensures response.Renamed? ==> response.path == WithLastName(request.resource, request.newName.value)
    ensures response.Renamed? ==>
              var parentPath := ParentPath(request.resource);
              var oldName := PageName(request.resource, rootName);
              var newName := request.newName.value;
              var scanned := Scanned(root, request.resource, request.newName.value, request.refactorReferences, renamer);
              && (|request.resource| > 0 ==> CanRename(scanned, parentPath, oldName, newName))
              && root' == if CanRename(scanned, parentPath, oldName, newName)
                          then ReKey(scanned, parentPath, oldName, newName)
                          else scanned
  {
    if request.newName.None? || !isSingleWikiWord(request.newName.value) || request.resource == [FrontPage] {
      return InvalidName, root;
    }
    var newName := request.newName.value;
    var pathToRename := request.resource;
    if Resolve(root, pathToRename).None? {
      return NotFound, root;
    }
    var parentPath := ParentPath(pathToRename);
    ResolvePrefix(root, parentPath, pathToRename);
    var parent := Resolve(root, parentPath).value;
    ResolveChild(parent, newName);
    var pageExists := Resolve(parent, [newName]).Some?;
    if pageExists {
      return AlreadyExists, root;
    }
    var oldName := PageName(pathToRename, rootName);
    if |pathToRename| > 0 {
      RenameApplies(root, request, rootName, renamer);
    }
    var newPath;
    root', newPath := RenamePageAndMaybeAllReferences(root, pathToRename, oldName, newName,
                                                       request.refactorReferences, renamer);
    response := Renamed(newPath);
  }
}
