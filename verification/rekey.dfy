/**
 What a successful structural rename does to the wiki, stated without the
 step-by-step migration: the parent holds the very same page (data and
 whole subtree) under the new name instead of the old one. The states the
 migration passes through on the way are described here as well.
 */
module Rekey {
  import opened Paths
  import opened Wiki

  /** The structural rename applies: the parent exists, has `oldName`, and lacks `newName`. */
  predicate CanRename(root: Page, parentPath: Path, oldName: Name, newName: Name) {
    && Resolve(root, parentPath).Some?
    && oldName in Resolve(root, parentPath).value.children
    && newName !in Resolve(root, parentPath).value.children
  }

  /** The reference definition: the parent's entry `oldName` is re-keyed to `newName`. */
  function ReKey(root: Page, parentPath: Path, oldName: Name, newName: Name): Page
    requires CanRename(root, parentPath, oldName, newName)
  {
    var parent := Resolve(root, parentPath).value;
    Put(root, parentPath, parent.(children := (parent.children - {oldName})[newName := parent.children[oldName]]))
  }

  /** The entries of `m` whose names are in `names`. */
  function Restrict(m: map<Name, Page>, names: set<Name>): (r: map<Name, Page>)
    ensures r.Keys == m.Keys * names
    ensures forall c :: c in r ==> r[c] == m[c]
  {
    map c | c in m && c in names :: m[c]
  }

  /**
   The parent part-way through the migration: the renamed page exists with
   the original data, the children named in `moved` hang below it, and the
   rest still hang below the original page.
   */
  function MigratingParent(parent: Page, oldName: Name, newName: Name, moved: set<Name>): Page
    requires oldName in parent.children
  {
    var original := parent.children[oldName];
    parent.(children := parent.children[oldName := original.(children := original.children - moved)]
                                       [newName := Page(original.data, Restrict(original.children, moved))])
  }

  /** The wiki part-way through the migration. */
  function Migrating(root: Page, parentPath: Path, oldName: Name, newName: Name, moved: set<Name>): Page
    requires CanRename(root, parentPath, oldName, newName)
  {
    Put(root, parentPath, MigratingParent(Resolve(root, parentPath).value, oldName, newName, moved))
  }

  /** Adding an empty page under the new name and committing the original data starts the migration. */
  lemma StartMigration(root: Page, parentPath: Path, oldName: Name, newName: Name)
    requires CanRename(root, parentPath, oldName, newName)
    ensures Commit(Attach(root, parentPath, newName, Page(NewPageData, map[])),
                   parentPath + [newName], Resolve(root, parentPath).value.children[oldName].data)
         == Migrating(root, parentPath, oldName, newName, {})
  {
    var parent := Resolve(root, parentPath).value;
    var original := parent.children[oldName];
    var added := parent.(children := parent.children[newName := Page(NewPageData, map[])]);
    var t1 := Attach(root, parentPath, newName, Page(NewPageData, map[]));
    assert t1 == Put(root, parentPath, added);
    var committed := Page(original.data, map[]);
    ResolvePutBelow(root, parentPath, [newName], added);
    assert Resolve(added, [newName]) == Some(Page(NewPageData, map[]));
    PutAppend(t1, parentPath, [newName], committed);
    PutPut(root, parentPath, added, Put(added, [newName], committed));
    assert Put(added, [newName], committed) == parent.(children := parent.children[newName := committed]);
    assert original.children - {} == original.children;
    assert Restrict(original.children, {}) == map[];
    assert parent.children[oldName := original] == parent.children;
  }

  /** At the level of the parent, moving `child` takes it from the original page to the renamed one. */
  lemma MigratingParentStep(parent: Page, oldName: Name, newName: Name, moved: set<Name>, child: Name)
    requires oldName in parent.children && oldName != newName
    requires child in parent.children[oldName].children && child !in moved
    ensures
      var mid := MigratingParent(parent, oldName, newName, moved);
      var left := mid.children[oldName];
      var mid1 := mid.(children := mid.children[oldName := left.(children := left.children - {child})]);
      var right := mid1.children[newName];
      mid1.(children := mid1.children[newName := right.(children := right.children[child := left.children[child]])])
        == MigratingParent(parent, oldName, newName, moved + {child})
  {
    var original := parent.children[oldName];
    assert original.children - moved - {child} == original.children - (moved + {child});
    assert Restrict(original.children, moved)[child := original.children[child]]
        == Restrict(original.children, moved + {child});
  }

  /** Moving one more child of the original page below the renamed page advances the migration. */
  lemma MigrateChild(root: Page, parentPath: Path, oldName: Name, newName: Name, moved: set<Name>, child: Name)
    requires CanRename(root, parentPath, oldName, newName)
    requires child in Resolve(root, parentPath).value.children[oldName].children && child !in moved
    ensures Resolve(Migrating(root, parentPath, oldName, newName, moved), parentPath + [oldName, child]).Some?
    ensures
      var t := Migrating(root, parentPath, oldName, newName, moved);
      var movee := Resolve(t, parentPath + [oldName, child]).value;
      Attach(Detach(t, parentPath + [oldName], child), parentPath + [newName], child, movee)
        == Migrating(root, parentPath, oldName, newName, moved + {child})
  {
    var parent := Resolve(root, parentPath).value;
    var mid := MigratingParent(parent, oldName, newName, moved);
    var t := Put(root, parentPath, mid);
    var left := mid.children[oldName];
    var movee := left.children[child];
    ResolvePutBelow(root, parentPath, [oldName, child], mid);
    assert [oldName, child][1..] == [child];
    assert Resolve(left, [child]) == Some(movee);
    assert Resolve(mid, [oldName, child]) == Some(movee);

    var mid1 := mid.(children := mid.children[oldName := left.(children := left.children - {child})]);
    DetachBelowChild(t, parentPath, oldName, child);
    PutPut(root, parentPath, mid, mid1);
    var t1 := Put(root, parentPath, mid1);

    var right := mid1.children[newName];
    var mid2 := mid1.(children := mid1.children[newName := right.(children := right.children[child := movee])]);
    AttachBelowChild(t1, parentPath, newName, child, movee);
    PutPut(root, parentPath, mid1, mid2);
    MigratingParentStep(parent, oldName, newName, moved, child);
    assert Resolve(t, parentPath + [oldName, child]).Some?;
    assert Detach(t, parentPath + [oldName], child) == t1;
    assert Attach(t1, parentPath + [newName], child, movee) == Put(root, parentPath, mid2);
    assert Put(root, parentPath, mid2) == Migrating(root, parentPath, oldName, newName, moved + {child});
  }

  /** Once every child has moved, removing the emptied original page completes the rename. */
  lemma FinishMigration(root: Page, parentPath: Path, oldName: Name, newName: Name)
    requires CanRename(root, parentPath, oldName, newName)
    ensures
      var moved := Resolve(root, parentPath).value.children[oldName].children.Keys;
      Detach(Migrating(root, parentPath, oldName, newName, moved), parentPath, oldName)
        == ReKey(root, parentPath, oldName, newName)
  {
    var parent := Resolve(root, parentPath).value;
    var original := parent.children[oldName];
    var moved := original.children.Keys;
    var mid := MigratingParent(parent, oldName, newName, moved);
    var last := mid.(children := mid.children - {oldName});
    PutPut(root, parentPath, mid, last);
    assert Restrict(original.children, moved) == original.children;
    assert Page(original.data, original.children) == original;
    assert last.children == (parent.children - {oldName})[newName := original];
  }

  /**
   Below the new name the wiki holds what was below the old name: the
   renamed page's data and every descendant, each under its own name.
   */
  lemma RenamedSubtreeMoves(root: Page, parentPath: Path, oldName: Name, newName: Name, suffix: Path)
    requires CanRename(root, parentPath, oldName, newName)
    ensures Resolve(ReKey(root, parentPath, oldName, newName), parentPath + [newName] + suffix)
         == Resolve(root, parentPath + [oldName] + suffix)
  {
    var parent := Resolve(root, parentPath).value;
    var parent' := parent.(children := (parent.children - {oldName})[newName := parent.children[oldName]]);
    assert parentPath + [newName] + suffix == parentPath + ([newName] + suffix);
    assert parentPath + [oldName] + suffix == parentPath + ([oldName] + suffix);
    ResolvePutBelow(root, parentPath, [newName] + suffix, parent');
    ResolveAppend(root, parentPath, [oldName] + suffix);
    assert ([newName] + suffix)[1..] == suffix;
    assert ([oldName] + suffix)[1..] == suffix;
  }

  /** Nothing is found under the old name any more. */
  lemma OldSubtreeGone(root: Page, parentPath: Path, oldName: Name, newName: Name, suffix: Path)
    requires CanRename(root, parentPath, oldName, newName)
    ensures Resolve(ReKey(root, parentPath, oldName, newName), parentPath + [oldName] + suffix).None?
  {
    var parent := Resolve(root, parentPath).value;
    var parent' := parent.(children := (parent.children - {oldName})[newName := parent.children[oldName]]);
    assert parentPath + [oldName] + suffix == parentPath + ([oldName] + suffix);
    ResolvePutBelow(root, parentPath, [oldName] + suffix, parent');
  }

  /**
   The frame: every path that neither passes through the old or the new name
   below the parent nor leads to the parent or one of its ancestors finds
   exactly what it found before.
   */
  lemma OtherPagesUnchanged(root: Page, parentPath: Path, oldName: Name, newName: Name, q: Path)
    requires CanRename(root, parentPath, oldName, newName)
    requires !IsPrefix(parentPath + [oldName], q) && !IsPrefix(parentPath + [newName], q)
    requires !IsPrefix(q, parentPath)
    ensures Resolve(ReKey(root, parentPath, oldName, newName), q) == Resolve(root, q)
  {
    var parent := Resolve(root, parentPath).value;
    var parent' := parent.(children := (parent.children - {oldName})[newName := parent.children[oldName]]);
    if IsPrefix(parentPath, q) {
      var rest := q[|parentPath|..];
      assert q == parentPath + rest;
      assert |rest| > 0;
      assert q[..|parentPath| + 1] == parentPath + [rest[0]];
      ResolvePutBelow(root, parentPath, rest, parent');
      ResolveAppend(root, parentPath, rest);
    } else {
      ResolvePutAside(root, parentPath, q, parent');
    }
  }

  /** The parent and its ancestors are still there and keep their own data. */
  lemma AncestorsKeepData(root: Page, parentPath: Path, oldName: Name, newName: Name, q: Path)
    requires CanRename(root, parentPath, oldName, newName)
    requires IsPrefix(q, parentPath)
    ensures Resolve(root, q).Some?
    ensures Resolve(ReKey(root, parentPath, oldName, newName), q).Some?
    ensures Resolve(ReKey(root, parentPath, oldName, newName), q).value.data == Resolve(root, q).value.data
  {
    var parent := Resolve(root, parentPath).value;
    var parent' := parent.(children := (parent.children - {oldName})[newName := parent.children[oldName]]);
    if |q| < |parentPath| {
      ResolvePutAbove(root, parentPath, q, parent');
    } else {
      assert q == parentPath;
    }
  }

  /** Renaming back to the old name restores the wiki exactly. */
  lemma ReKeyRoundTrip(root: Page, parentPath: Path, oldName: Name, newName: Name)
    requires CanRename(root, parentPath, oldName, newName)
    ensures CanRename(ReKey(root, parentPath, oldName, newName), parentPath, newName, oldName)
    ensures ReKey(ReKey(root, parentPath, oldName, newName), parentPath, newName, oldName) == root
  {
    var parent := Resolve(root, parentPath).value;
    var parent' := parent.(children := (parent.children - {oldName})[newName := parent.children[oldName]]);
    var parent'' := parent'.(children := (parent'.children - {newName})[oldName := parent'.children[newName]]);
    PutPut(root, parentPath, parent', parent'');
    assert parent''.children == parent.children;
    PutSelf(root, parentPath);
  }
}
