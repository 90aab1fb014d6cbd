# Renaming a wiki page

A Dafny model of the page-rename responder of FitNesse
(`RenamePageResponder`). A wiki is an immutable tree: each page holds its
data (content and properties) and a finite map from child name to child page.
A rename request names a page by its path, gives a new simple name and may ask
for references to be rewritten. The responder:

1. refuses a missing new name, a new name that is not a single wiki word, or a
   request whose page is `FrontPage` (invalid name);
2. answers "not found" when the path does not lead to a page;
3. refuses when the page's parent already has a child under the new name
   (already exists);
4. otherwise rewrites references throughout the wiki if asked to, then renames
   the page structurally: it adds a sibling under the new name, commits the old
   page's data into it, moves every child of the old page below it, and removes
   the old page. That step re-checks its own preconditions and silently does
   nothing when they fail, which can only happen for the root page;
5. answers with the request's path whose last name is replaced by the new
   name, computed from the path alone.

Modules:

- `Paths` (`paths.dfy`): names, paths, parent path, last-name replacement.
- `Wiki` (`wiki.dfy`): the page tree, lookup along a path, and the store
  operations `addChildPage`+`commit` (`Attach`), `commit` (`Commit`) and
  `removeChildPage` (`Detach`), with the path algebra they need.
- `Move` (`move.dfy`): the page move the rename delegates each child to.
- `References` (`references.dfy`): the reference rewrite as a content transform
  over every page.
- `Rekey` (`rekey.dfy`): the reference definition of a structural rename (the
  parent's entry is re-keyed), the intermediate states of the migration, and
  the path-level facts: the subtree moves, the old name is gone, nothing else
  changes, renaming back restores the wiki.
- `Rename` (`rename.dfy`): `renamePage` as a loop over the old page's
  children, `renamePageAndMaybeAllReferences`, and `makeResponse`.

Collaborators whose code is not part of this model are parameters:
`isSingleWikiWord` is a predicate on names; the page reference renamer is a
function from (path of the renamed page, new name, path of the scanned page,
that page's data) to the scanned page's new data; the root page's own name is
the parameter `rootName`. The move-page responder is modelled as "hang the
subtree at this path below that page, under its own name".

Behaviours of the responder worth knowing:

- The front-page check is on the page being renamed only. A new name of
  `FrontPage` is accepted when it is a single wiki word and free.
- The root page (the empty path) is not refused. It resolves, its parent path
  is the root itself and its name is the root's own name, so the structural
  rename normally does nothing. The responder still answers `Renamed([newName])`,
  because the result of `renamePage` is ignored.
- A page that resolves always has a parent that resolves (`Wiki.ResolvePrefix`).

## Model

| member | source | states |
|---|---|---|
| Rename.MakeResponse | src/fitnesse/responders/refactoring/RenamePageResponder.java:33-62 | Each error outcome holds exactly when its condition holds, in the order invalid name, not found, already exists. Every error leaves the wiki unchanged. A rename answers with the path whose last name is the new name. For a non-root page, the wiki afterwards is the re-keyed version of the wiki as the reference rewrite left it. |
| Rename.RenamePageAndMaybeAllReferences | src/fitnesse/responders/refactoring/RenamePageResponder.java:72-80 | The rewrite, when asked for, runs on the wiki before the structural rename. The answer is always the old path with its last name replaced, even when the structural rename did nothing. |
| Rename.RenamePage | src/fitnesse/responders/refactoring/RenamePageResponder.java:87-106 | Returns true iff the parent has the old name and lacks the new one. On false the wiki is unchanged. On true the add, commit, per-child move and remove steps give exactly the re-keyed wiki, whatever order the children are moved in. |
| Rename.RenameApplies | src/fitnesse/responders/refactoring/RenamePageResponder.java:87-91 | Once a non-root page is found and the collision check passes, the re-check inside the structural rename succeeds, including on the wiki after the reference rewrite. |
| Rename.RedirectFindsRenamedPage | src/fitnesse/responders/refactoring/RenamePageResponder.java:93-104 | After a rename, the redirect path finds a page with the old page's children and data. The data is rewritten at the page's old path when a rewrite was asked for. The old path finds nothing. |
| Rename.PageName | src/fitnesse/responders/refactoring/RenamePageResponder.java:88 | The name of a non-root page is the last name of its path, below its parent path. |
| Rekey.RenamedSubtreeMoves | src/fitnesse/responders/refactoring/RenamePageResponder.java:93-102 | For every suffix, the path through the new name finds what the path through the old name found before: the data and every descendant under its own name. |
| Rekey.OldSubtreeGone | src/fitnesse/responders/refactoring/RenamePageResponder.java:104 | No path through the old name resolves after the rename. |
| Rekey.OtherPagesUnchanged | src/fitnesse/responders/refactoring/RenamePageResponder.java:89-104 | A path that avoids the old and new entries and is not the parent or one of its ancestors finds exactly what it found before. This covers every sibling and every page outside the renamed subtree. |
| Rekey.AncestorsKeepData | src/fitnesse/responders/refactoring/RenamePageResponder.java:97-104 | The parent and its ancestors still resolve and keep their own data. |
| Rekey.ReKeyRoundTrip | src/fitnesse/responders/refactoring/RenamePageResponder.java:93-104 | Renaming the new name back to the old one is allowed and restores the wiki exactly. |
| Rekey.StartMigration | src/fitnesse/responders/refactoring/RenamePageResponder.java:97-98 | Adding an empty child under the new name and committing the old page's data gives the first migration state, with no child moved yet. |
| Rekey.MigrateChild | src/fitnesse/responders/refactoring/RenamePageResponder.java:100-102 | Moving one unmoved child of the old page below the renamed page advances the migration state by exactly that child. |
| Rekey.FinishMigration | src/fitnesse/responders/refactoring/RenamePageResponder.java:104 | When every child has moved, removing the old page gives the re-keyed wiki. |
| Move.MovePage | src/fitnesse/responders/refactoring/RenamePageResponder.java:100-102 | A move of a missing page changes nothing. Otherwise the page that was at the source path is found below the new parent under its own name, provided the new parent is not inside the moved subtree. The source path finds nothing afterwards when it is unrelated to the new parent. Every path unrelated to both the old and the new parent finds what it found before. |
| References.RenameReferences | src/fitnesse/responders/refactoring/RenamePageResponder.java:82-85 | The rewrite keeps the wiki's shape. A path resolves afterwards iff it did before, with the same child names. Each page's data becomes the transform's result for that page's path. |
| References.RenameReferencesUnchanged | src/fitnesse/responders/refactoring/RenamePageResponder.java:82-85 | If the transform leaves every existing page's data as it is, the rewrite leaves the wiki exactly as it was. |
| Paths.WithLastName | src/fitnesse/responders/refactoring/RenamePageResponder.java:77-79 | Removing the last name and adding the new one keeps the length and every earlier name of a non-empty path. The last name becomes the new name, and the parent path is unchanged. |
| Paths.WithLastNameRoundTrip | src/fitnesse/responders/refactoring/RenamePageResponder.java:77-79 | Replacing the last name and then putting the old one back gives the original path. |
| Paths.ParentPath | src/fitnesse/responders/refactoring/RenamePageResponder.java:50 | The parent path is a prefix of the path, one name shorter for a non-root page. |
| Wiki.ResolveLast | src/fitnesse/responders/refactoring/RenamePageResponder.java:46-51 | A path finds a page iff its parent path finds a page that has a child under the path's last name; that child is what it finds. |
| Wiki.ResolvePrefix | src/fitnesse/responders/refactoring/RenamePageResponder.java:50-51 | Every prefix of a path that finds a page also finds a page, so the parent of a found page is found. |
| Wiki.ResolveChild | src/fitnesse/responders/refactoring/RenamePageResponder.java:52 | A one-name lookup below the parent succeeds iff the parent has a child of that name, and it finds that child. |
| Wiki.Attach | src/fitnesse/responders/refactoring/RenamePageResponder.java:97 | After adding a child below an existing page, the child's path finds exactly that child and the page keeps its data and its other children. Paths unrelated to the page find what they found before, and its ancestors keep their data. Below a missing page nothing changes. |
| Wiki.Commit | src/fitnesse/responders/refactoring/RenamePageResponder.java:98 | After a commit, the page has the committed data and keeps its children. Paths unrelated to the page find what they found before, and its ancestors keep their data. A missing page changes nothing. |
| Wiki.Detach | src/fitnesse/responders/refactoring/RenamePageResponder.java:104 | After removing a child, its path no longer resolves, and the page keeps its data and its other children. Paths unrelated to the page find what they found before, and its ancestors keep their data. Below a missing page nothing changes. |

## Left out

- HTTP handling, the redirect, the HTML error messages, `makeLink`,
  `makeErrorMessageResponder` and `getSecureOperation`: presentation and
  authorization. Outcomes are the `Response` datatype.
- Qualified-name text syntax: the request's resource is an already-parsed path.
  The source compares the raw resource string with `"FrontPage"`. The model
  compares the path with `["FrontPage"]`, so other spellings of that page
  (for example, with a leading dot) are not distinguished.
- The wiki-word grammar: `isSingleWikiWord` is a parameter.
- The reference renamer's token matching: it is a content transform
  parameter. The model assumes the renamer only changes page data and never
  adds or removes pages.
- The move-page responder's internals: a move is "detach the subtree, attach it
  under the new parent with the same name".
- Move.MovePage: the frame does not cover paths related to the old or the new
  parent; the full effect of each move inside a rename is stated by
  `Rekey.MigrateChild` instead.
- Symbolic links and other page kinds the page crawler may follow: lookup
  walks child maps only.
- Removing the last name of an empty path is taken to leave it empty. The
  page-path class is not part of this model.
- Persistence, page versions and exceptions thrown by the page store: data is
  copied as one value, and store operations always succeed.
- Concurrency, and the non-atomic gap between the collision check and the
  mutation: each request runs alone against one wiki value.
