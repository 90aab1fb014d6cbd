/**
 An immutable wiki page tree. Every page holds its data and a finite map
 from child name to child page; a page's own name is the key under which its
 parent holds it. Mutation of the page store (`addChildPage`, `commit`,
 `removeChildPage`) is modelled by functions that return the whole new tree.
 */
module Wiki {
  import opened Paths

  datatype Option<+T> = None | Some(value: T)

  /** The content of a page and its properties; copied as one value. */
  datatype PageData = PageData(content: string, properties: map<string, string>)

  /** The data a freshly added page carries before anything is committed. */
  const NewPageData: PageData := PageData("", map[])

  datatype Page = Page(data: PageData, children: map<Name, Page>)

  /** The child `name` of an optional page. */
  function ChildOf(parent: Option<Page>, name: Name): Option<Page> {
    match parent
    case None => None
    case Some(page) => if name in page.children then Some(page.children[name]) else None
  }

  /** The page crawler's lookup: walks the child maps one name at a time from the root. */
  function Resolve(page: Page, p: Path): Option<Page>
    decreases |p|
  {
    if |p| == 0 then Some(page)
    else if p[0] in page.children then Resolve(page.children[p[0]], p[1..])
    else None
  }

  /**
   Read from the other end, the lookup finds the page at a non-empty path as
   the child `Last(p)` of the page at its parent path.
   */
  lemma ResolveLast(page: Page, p: Path)
    requires |p| > 0
    ensures Resolve(page, p) == ChildOf(Resolve(page, ParentPath(p)), Last(p))
  {
    ResolveAppend(page, ParentPath(p), [Last(p)]);
    if Resolve(page, ParentPath(p)).Some? {
      ResolveChild(Resolve(page, ParentPath(p)).value, Last(p));
    }
  }

  /**
   `r` differs from `root` only at the page at `at` and in the ancestors
   rebuilt above it: every path that branches away from `at` finds the same
   page as before, and every ancestor of `at` keeps its data.
   */
  ghost predicate ChangedOnlyAt(root: Page, r: Page, at: Path) {
    && (forall q :: !IsPrefix(at, q) && !IsPrefix(q, at) ==> Resolve(r, q) == Resolve(root, q))
    && (forall q :: IsPrefix(q, at) && |q| < |at| && Resolve(root, q).Some? ==>
          Resolve(r, q).Some? && Resolve(r, q).value.data == Resolve(root, q).value.data)
  }

  /** A one-name lookup finds exactly the child of that name. */
  lemma ResolveChild(page: Page, name: Name)
    ensures Resolve(page, [name]).Some? <==> name in page.children
    ensures name in page.children ==> Resolve(page, [name]) == Some(page.children[name])
  {
    assert [name][1..] == [];
  }

  /** Continues a lookup from an optional page. */
  function ResolveFrom(start: Option<Page>, p: Path): Option<Page> {
    match start
    case None => None
    case Some(page) => Resolve(page, p)
  }

  /**
   Replaces the page at `p` by `n`, rebuilding its ancestors; when `p` does
   not resolve there is nothing to replace and the tree is returned as is.
   */
  function Put(page: Page, p: Path, n: Page): (r: Page)
    ensures Resolve(page, p).Some? ==> Resolve(r, p) == Some(n)
    ensures Resolve(page, p).None? ==> r == page
    ensures |p| > 0 ==> r.data == page.data
    decreases |p|
  {
    if |p| == 0 then n
    else if p[0] in page.children then
      page.(children := page.children[p[0] := Put(page.children[p[0]], p[1..], n)])
    else page
  }

  /**
   `addChildPage` followed by a commit of `child`: hangs `child` under the
   page at `at`, which keeps its data and its other children; nothing else
   in the wiki changes.
   */
  function Attach(root: Page, at: Path, name: Name, child: Page): (r: Page)
    ensures Resolve(root, at).Some? ==>
              && Resolve(r, at) == Some(Resolve(root, at).value.(children := Resolve(root, at).value.children[name := child]))
              && Resolve(r, at + [name]) == Some(child)
    ensures ChangedOnlyAt(root, r, at)
    ensures Resolve(root, at).None? ==> r == root
  {
    match Resolve(root, at)
    case None => root
    case Some(parent) =>
      var parent' := parent.(children := parent.children[name := child]);
      var r := Put(root, at, parent');
      ResolveAppend(r, at, [name]);
      assert Resolve(parent', [name]) == Resolve(child, []);
      PutChangesOnlyAt(root, at, parent');
      r
  }

  /**
   `removeChildPage`: the page at `at` loses its child `name` and that
   child's subtree, and keeps its data and its other children; nothing else
   in the wiki changes.
   */
  function Detach(root: Page, at: Path, name: Name): (r: Page)
    ensures Resolve(root, at).Some? ==>
              && Resolve(r, at) == Some(Resolve(root, at).value.(children := Resolve(root, at).value.children - {name}))
              && Resolve(r, at + [name]) == None
    ensures ChangedOnlyAt(root, r, at)
    ensures Resolve(root, at).None? ==> r == root
  {
    match Resolve(root, at)
    case None => root
    case Some(parent) =>
      var parent' := parent.(children := parent.children - {name});
      var r := Put(root, at, parent');
      ResolveAppend(r, at, [name]);
      PutChangesOnlyAt(root, at, parent');
      r
  }

  /** `commit`: the page at `at` gets `data` and keeps its children; nothing else in the wiki changes. */
  function Commit(root: Page, at: Path, data: PageData): (r: Page)
    ensures Resolve(root, at).Some? ==> Resolve(r, at) == Some(Resolve(root, at).value.(data := data))
    ensures ChangedOnlyAt(root, r, at)
    ensures Resolve(root, at).None? ==> r == root
  {
    match Resolve(root, at)
    case None => root
    case Some(page) =>
      PutChangesOnlyAt(root, at, page.(data := data));
      Put(root, at, page.(data := data))
  }

  /** A lookup along `p + q` is a lookup along `p` followed by one along `q`. */
  lemma {:induction false} ResolveAppend(page: Page, p: Path, q: Path)
    ensures Resolve(page, p + q) == ResolveFrom(Resolve(page, p), q)
    decreases |p|
  {
    if |p| == 0 {
      assert p + q == q;
    } else {
      assert (p + q)[0] == p[0];
      assert (p + q)[1..] == p[1..] + q;
      if p[0] in page.children {
        ResolveAppend(page.children[p[0]], p[1..], q);
      }
    }
  }

  /** A lookup at a path that resolves also resolves at each of its prefixes. */
  lemma {:induction false} ResolvePrefix(page: Page, p: Path, q: Path)
    requires IsPrefix(p, q)
    requires Resolve(page, q).Some?
    ensures Resolve(page, p).Some?
  {
    assert q == p + q[|p|..];
    ResolveAppend(page, p, q[|p|..]);
  }

  /** Replacing a page inside a subtree is replacing that subtree. */
  lemma {:induction false} PutAppend(page: Page, p: Path, q: Path, n: Page)
    requires Resolve(page, p).Some?
    ensures Put(page, p + q, n) == Put(page, p, Put(Resolve(page, p).value, q, n))
    decreases |p|
  {
    if |p| == 0 {
      assert p + q == q;
    } else {
      assert (p + q)[0] == p[0];
      assert (p + q)[1..] == p[1..] + q;
      PutAppend(page.children[p[0]], p[1..], q, n);
    }
  }

  /** The second of two replacements at the same path wins. */
  lemma {:induction false} PutPut(page: Page, p: Path, a: Page, b: Page)
    ensures Put(Put(page, p, a), p, b) == Put(page, p, b)
    decreases |p|
  {
    if |p| > 0 && p[0] in page.children {
      PutPut(page.children[p[0]], p[1..], a, b);
      var inner := page.children[p[0]];
      assert Put(page, p, a).children[p[0]] == Put(inner, p[1..], a);
      assert Put(page, p, a).children[p[0] := Put(Put(inner, p[1..], a), p[1..], b)]
          == page.children[p[0] := Put(inner, p[1..], b)];
    }
  }

  /** Putting back the page that is already there changes nothing. */
  lemma {:induction false} PutSelf(page: Page, p: Path)
    requires Resolve(page, p).Some?
    ensures Put(page, p, Resolve(page, p).value) == page
    decreases |p|
  {
    if |p| > 0 {
      PutSelf(page.children[p[0]], p[1..]);
      assert page.children[p[0] := page.children[p[0]]] == page.children;
    }
  }

  /** Below the replaced page, lookups see the new page. */
  lemma ResolvePutBelow(page: Page, p: Path, q: Path, n: Page)
    requires Resolve(page, p).Some?
    ensures Resolve(Put(page, p, n), p + q) == Resolve(n, q)
  {
    ResolveAppend(Put(page, p, n), p, q);
  }

  /** Replacing a page does not affect any path that branches away from it. */
  lemma {:induction false} ResolvePutAside(page: Page, p: Path, q: Path, n: Page)
    requires !IsPrefix(p, q) && !IsPrefix(q, p)
    ensures Resolve(Put(page, p, n), q) == Resolve(page, q)
    decreases |p|
  {
    assert |p| > 0 && |q| > 0;
    if p[0] in page.children && p[0] == q[0] {
      PrefixTail(p, q);
      PrefixTail(q, p);
      ResolvePutAside(page.children[p[0]], p[1..], q[1..], n);
    }
  }

  /** An ancestor of a replaced page still resolves and keeps its data. */
  lemma {:induction false} ResolvePutAbove(page: Page, p: Path, q: Path, n: Page)
    requires IsPrefix(q, p) && |q| < |p|
    requires Resolve(page, p).Some?
    ensures Resolve(Put(page, p, n), q).Some?
    ensures Resolve(page, q).Some?
    ensures Resolve(Put(page, p, n), q).value.data == Resolve(page, q).value.data
    decreases |q|
  {
    if |q| > 0 {
      assert q[0] == p[0];
      assert IsPrefix(q[1..], p[1..]) by {
        assert p[1..][..|q| - 1] == p[..|q|][1..];
      }
      ResolvePutAbove(page.children[p[0]], p[1..], q[1..], n);
    }
  }

  /** Removing a grandchild of the page at `p` rebuilds the page at `p` with that grandchild gone. */
  lemma DetachBelowChild(root: Page, p: Path, name: Name, c: Name)
    requires Resolve(root, p).Some? && name in Resolve(root, p).value.children
    ensures
      var parent := Resolve(root, p).value;
      var page := parent.children[name];
      Detach(root, p + [name], c)
        == Put(root, p, parent.(children := parent.children[name := page.(children := page.children - {c})]))
  {
    var parent := Resolve(root, p).value;
    var page := parent.children[name];
    ResolveAppend(root, p, [name]);
    assert Resolve(parent, [name]) == Some(page);
    PutAppend(root, p, [name], page.(children := page.children - {c}));
  }

  /** Adding a grandchild below the page at `p` rebuilds the page at `p` with that grandchild added. */
  lemma AttachBelowChild(root: Page, p: Path, name: Name, c: Name, child: Page)
    requires Resolve(root, p).Some? && name in Resolve(root, p).value.children
    ensures
      var parent := Resolve(root, p).value;
      var page := parent.children[name];
      Attach(root, p + [name], c, child)
        == Put(root, p, parent.(children := parent.children[name := page.(children := page.children[c := child])]))
  {
    var parent := Resolve(root, p).value;
    var page := parent.children[name];
    ResolveAppend(root, p, [name]);
    assert Resolve(parent, [name]) == Some(page);
    PutAppend(root, p, [name], page.(children := page.children[c := child]));
  }

  /** Replacing the page at a path that resolves changes nothing away from it. */
  lemma {:induction false} PutChangesOnlyAt(page: Page, p: Path, n: Page)
    requires Resolve(page, p).Some?
    ensures ChangedOnlyAt(page, Put(page, p, n), p)
  {
    forall q | !IsPrefix(p, q) && !IsPrefix(q, p)
      ensures Resolve(Put(page, p, n), q) == Resolve(page, q)
    {
      ResolvePutAside(page, p, q, n);
    }
    forall q | IsPrefix(q, p) && |q| < |p| && Resolve(page, q).Some?
      ensures Resolve(Put(page, p, n), q).Some?
      ensures Resolve(Put(page, p, n), q).value.data == Resolve(page, q).value.data
    {
      ResolvePutAbove(page, p, q, n);
    }
  }
}
